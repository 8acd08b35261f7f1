/**
 * `TEManager`: the traffic-engineering front of the path computation
 * engine. It owns a `TopologyManager`, the graph the solver works on and
 * the VLAN tags table, and turns a solver's path into per-domain,
 * VLAN-tagged breakdowns. Each method is proved against the functions of
 * `VlanTables` and `Breakdown`, which say what it computes.
 */
module TE {
  import opened Wrappers
  import opened Exceptions
  import opened OrderedMaps
  import opened TopologyModel
  import Labels
  import Merge
  import opened VlanTables
  import opened Breakdown
  import Manager

  /** `setdefault(label, UNUSED_VLAN)` on a port's tags, for each label in order. */
  method SetDefaultLabels(t: PortTable, labels: seq<int>) returns (r: PortTable)
    ensures r == AddLabels(t, labels)
  {
    r := t;
    for i := 0 to |labels|
      invariant r == AddLabels(t, labels[..i])
    {
      assert labels[..i + 1][..i] == labels[..i];
      r := r.SetDefault(Some(labels[i]), None);
    }
    assert labels[..|labels|] == labels;
  }

  /** The innermost loop of `unreserve_vlan`: every tag of the port held by the request becomes free. */
  method ReleasePortTags(t: PortTable, req: RequestId) returns (r: PortTable)
    requires t.Valid()
    ensures r == ReleasePort(t, req)
  {
    r := t;
    for i := 0 to |t.keys|
      invariant r.keys == t.keys && r.values.Keys == t.values.Keys
      invariant forall j | 0 <= j < |t.keys| ::
        r.values[t.keys[j]] == if j < i && t.values[t.keys[j]] == Some(req) then None else t.values[t.keys[j]]
    {
      var k := t.keys[i];
      if r.values[k] == Some(req) {
        r := OMap(r.keys, r.values[k := None]);
      }
    }
    forall k | k in t.values
      ensures r.values[k] == ReleasePort(t, req).values[k]
    {
      var j :| 0 <= j < |t.keys| && t.keys[j] == k;
    }
  }

  /** The middle loop of `unreserve_vlan`, over one domain's ports. */
  method ReleaseDomainTags(dt: DomainTable, req: RequestId) returns (r: DomainTable)
    requires DomainValid(dt)
    ensures r == ReleaseDomain(dt, req)
  {
    r := dt;
    var todo := dt.Keys;
    while todo != {}
      invariant todo <= dt.Keys && r.Keys == dt.Keys
      invariant forall p | p in dt :: r[p] == if p in todo then dt[p] else ReleasePort(dt[p], req)
      decreases todo
    {
      var p :| p in todo;
      var t := ReleasePortTags(dt[p], req);
      r := r[p := t];
      todo := todo - {p};
    }
  }

  /**
   * The loop of `_update_vlan_tags_table` over the ports: each port with a
   * label range gets every label as a free tag unless it is there already;
   * the first range that raises stops the loop and leaves what was added
   * so far.
   */
  method RefreshPortTags(dt: DomainTable, ports: OMap<string, Port>) returns (r: Refresh)
    requires ports.Valid()
    ensures r == RefreshPorts(dt, ports, |ports.keys|)
  {
    var table := dt;
    for i := 0 to |ports.keys|
      invariant RefreshPorts(dt, ports, i) == Refresh(table, None)
    {
      var portId := ports.keys[i];
      var range := LabelRangeOf(ports.values[portId]);
      if range.None? {
        continue;
      }
      var labels := Labels.ExpandLabelRange(range.value);
      if labels.Err? {
        RefreshPortsSticks(dt, ports, i + 1, |ports.keys|);
        return Refresh(table, Some(labels.error));
      }
      var t := if portId in table then table[portId] else Empty();
      t := SetDefaultLabels(t, labels.value);
      table := table[portId := t];
    }
    return Refresh(table, None);
  }

  /**
   * The lookups of one link of the first loop of
   * `generate_connection_breakdown`: its end nodes in the graph and their
   * domains.
   */
  method ResolveLink(graph: Option<seq<string>>, manager: Manager.TopologyManager, link: ConnectionPath)
    returns (r: Result<Hop, PyError>)
    requires manager.Valid()
    ensures r == ResolveHop(graph, manager.topologyMap, link)
  {
    if graph.None? {
      return Err(AttributeError);
    }
    var srcNode := VertexNode(graph.value, link.source);
    if srcNode.None? {
      return Err(AssertionError);
    }
    var dstNode := VertexNode(graph.value, link.destination);
    if dstNode.None? {
      return Err(AssertionError);
    }
    var srcDomain := manager.GetDomainName(srcNode.value);
    var dstDomain := manager.GetDomainName(dstNode.value);
    return Ok(Hop(link, srcNode.value, dstNode.value, srcDomain, dstDomain));
  }

  /**
   * The first loop of `generate_connection_breakdown`, over one domain's
   * links: resolve each link, and file a run when a link crosses domains
   * or the list ends.
   */
  method GroupLinks(graph: Option<seq<string>>, manager: Manager.TopologyManager,
                    breakdown: OMap<DomainId, seq<Hop>>, links: seq<ConnectionPath>)
    returns (r: Result<OMap<DomainId, seq<Hop>>, PyError>)
    requires manager.Valid()
    ensures ResolvePath(graph, manager.topologyMap, links).Ok? ==>
      r == Ok(PutRuns(breakdown, Runs(ResolvePath(graph, manager.topologyMap, links).value)))
    ensures ResolvePath(graph, manager.topologyMap, links).Err? ==>
      r == Err(ResolvePath(graph, manager.topologyMap, links).error)
  {
    var bd := breakdown;
    var current: seq<Hop> := [];
    var hops: seq<Hop> := [];
    for count := 0 to |links|
      invariant Grouped(graph, manager.topologyMap, breakdown, links, count, hops, bd, current)
    {
      var err, bd', current', hops' := GroupNext(graph, manager, breakdown, links, count, hops, bd, current);
      bd, current, hops := bd', current', hops';
      if err.Some? {
        return Err(err.value);
      }
    }
    assert links[..|links|] == links;
    return Ok(bd);
  }

  /** The grouping loop's state after `count` links: the links resolved so far, filed as `Gather` files them. */
  ghost predicate Grouped(graph: Option<seq<string>>, topologyMap: OMap<string, Topology>, breakdown: OMap<DomainId, seq<Hop>>,
                          links: seq<ConnectionPath>, count: nat, hops: seq<Hop>, bd: OMap<DomainId, seq<Hop>>, current: seq<Hop>)
  {
    && count <= |links|
    && ResolvePath(graph, topologyMap, links[..count]) == Ok(hops)
    && bd == PutRuns(breakdown, Gather(hops, |links|).runs)
    && current == Gather(hops, |links|).pending
  }

  /** One link of the grouping loop: resolve it, then file it; a lookup that raises ends the grouping. */
  method GroupNext(graph: Option<seq<string>>, manager: Manager.TopologyManager, breakdown: OMap<DomainId, seq<Hop>>,
                   links: seq<ConnectionPath>, count: nat, hops: seq<Hop>, bd: OMap<DomainId, seq<Hop>>, current: seq<Hop>)
    returns (err: Option<PyError>, bd': OMap<DomainId, seq<Hop>>, current': seq<Hop>, hops': seq<Hop>)
    requires manager.Valid() && count < |links|
    requires Grouped(graph, manager.topologyMap, breakdown, links, count, hops, bd, current)
    ensures err.Some? ==> ResolvePath(graph, manager.topologyMap, links) == Err(err.value)
    ensures err.None? ==> Grouped(graph, manager.topologyMap, breakdown, links, count + 1, hops', bd', current')
  {
    var h := ResolveLink(graph, manager, links[count]);
    ResolvePathNext(graph, manager.topologyMap, links, count, hops);
    if h.Err? {
      ResolvePathSticks(graph, manager.topologyMap, links, count + 1);
      return Some(h.error), bd, current, hops;
    }
    GatherNext(hops, h.value, |links|);
    PutRunsSnoc(breakdown, Gather(hops, |links|).runs, current + [h.value]);
    hops' := hops + [h.value];
    err := None;
    bd', current' := FileHop(bd, current, h.value, count == |links| - 1);
  }

  /**
   * `current_link_set.append(link)`, then the run is filed under the
   * link's source domain when the link crosses domains (and the set
   * restarts empty) or when it is the list's last link.
   */
  method FileHop(bd: OMap<DomainId, seq<Hop>>, current: seq<Hop>, h: Hop, isLast: bool)
    returns (bd': OMap<DomainId, seq<Hop>>, current': seq<Hop>)
    ensures var run := current + [h];
      && (CrossDomain(h) ==> bd' == bd.Put(RunDomain(run), run) && current' == [])
      && (!CrossDomain(h) && isLast ==> bd' == bd.Put(RunDomain(run), run) && current' == run)
      && (!CrossDomain(h) && !isLast ==> bd' == bd && current' == run)
  {
    bd', current' := bd, current + [h];
    if h.srcDomain == h.dstDomain {
      if isLast {
        bd' := bd'.Put(h.srcDomain, current');
      }
    } else {
      bd' := bd'.Put(h.srcDomain, current');
      current' := [];
    }
  }

  /** The grouping over every domain of the solution. */
  method GroupSolution(graph: Option<seq<string>>, manager: Manager.TopologyManager, paths: seq<seq<ConnectionPath>>)
    returns (r: Result<OMap<DomainId, seq<Hop>>, PyError>)
    requires manager.Valid()
    ensures r == GroupPaths(graph, manager.topologyMap, paths)
  {
    var breakdown: OMap<DomainId, seq<Hop>> := Empty();
    for i := 0 to |paths|
      invariant GroupPaths(graph, manager.topologyMap, paths[..i]) == Ok(breakdown)
    {
      GroupPathsNext(graph, manager.topologyMap, paths, i);
      var grouped := GroupLinks(graph, manager, breakdown, paths[i]);
      if grouped.Err? {
        GroupPathsSticks(graph, manager.topologyMap, paths, i + 1);
        return Err(grouped.error);
      }
      breakdown := grouped.value;
    }
    assert paths[..|paths|] == paths;
    return Ok(breakdown);
  }

  /**
   * The chaining loop of `generate_connection_breakdown`: walk the
   * domains in order, carrying `next_ingress_port`, and give each domain
   * its segment. Without a merged topology the first lookup raises, and
   * so does a lookup whose asserts fail.
   */
  method ChainRuns(runs: seq<seq<Hop>>, request: RequestFormat, sameDomain: bool, manager: Manager.TopologyManager,
                   portsByLink: (Topology, string, string) -> Option<(string, string, string, string)>)
    returns (r: Result<Chain, PyError>)
    requires manager.Valid() && forall k | 0 <= k < |runs| :: |runs[k]| > 0
    ensures |runs| > 0 && manager.topology.None? ==> r == Err(AttributeError)
    ensures |runs| == 0 ==> r == Ok(Chain([], None, None, None))
    ensures |runs| > 0 && manager.topology.Some? ==>
      var ports := Ports(manager.topology.value, portsByLink, manager.portLinkMap.Keys);
      r == if ChainAsserted(runs, |runs|, request, ports) then Ok(ChainUpTo(runs, |runs|, request, sameDomain, ports))
           else Err(AssertionError)
  {
    if |runs| == 0 {
      return Ok(Chain([], None, None, None));
    }
    if manager.topology.None? {
      return Err(AttributeError);
    }
    var ports := Ports(manager.topology.value, portsByLink, manager.portLinkMap.Keys);
    var chain := Chain([], None, None, None);
    var first := true;
    for i := 0 to |runs|
      invariant first <==> i == 0
      invariant chain == ChainUpTo(runs, i, request, sameDomain, ports)
      invariant ChainAsserted(runs, i, request, ports)
    {
      var err := None;
      chain, err := ChainNext(chain, first, i, |runs|, runs[i], request, sameDomain, manager, ports);
      if err.Some? {
        return Err(AssertionError);
      }
      first := false;
    }
    return Ok(chain);
  }

  /** `_get_ports_by_link(link)`: the ports at the two ends of the link, raising when an assert fails. */
  method GetPortsByLink(ports: Ports, h: Hop) returns (r: Result<(Option<string>, Option<string>), PyError>)
    ensures r == if LinkAsserted(ports, h) then Ok(LinkPorts(ports, h)) else Err(AssertionError)
  {
    var found := ports.portsByLink(ports.merged, h.srcNode, h.dstNode);
    if found.None? {
      return Ok((None, None));
    }
    var (n1, p1, n2, p2) := found.value;
    if n1 != h.srcNode || n2 != h.dstNode {
      return Err(AssertionError);
    }
    return Ok((Some(p1), Some(p2)));
  }

  /**
   * One iteration of the chaining loop: the domain's ingress and egress
   * ports, and the `next_ingress_port` it leaves for the following domain;
   * `AssertionError` when one of its lookups fails an assert.
   */
  method ChainNext(c: Chain, first: bool, i: nat, n: nat, links: seq<Hop>, request: RequestFormat, sameDomain: bool,
                   manager: Manager.TopologyManager, ports: Ports) returns (d: Chain, err: Option<PyError>)
    requires manager.topology.Some? && ports.merged == manager.topology.value && ports.linked == manager.portLinkMap.Keys
    requires |links| > 0 && (first <==> i == 0)
    ensures err == if StepAsserted(i, n, links, request, ports) then None else Some(AssertionError)
    ensures err.None? ==> d == ChainStep(c, i, n, links, request, sameDomain, ports)
  {
    d := c;
    var last := links[|links| - 1];
    var next, ingressUser, egressUser := c.next, c.ingressUser, c.egressUser;
    var ingress: Option<string> := None;
    var egress: Option<string> := None;
    if first {
      ingress, ingressUser, err := ChainIngress(c, links, request, manager, ports);
      if err.Some? {
        return;
      }
      var lookup := GetPortsByLink(ports, last);
      if lookup.Err? {
        return d, Some(lookup.error);
      }
      if request.Connection? && sameDomain && request.request.egress.id !in manager.portLinkMap {
        egressUser := Some(request.request.egress);
        var found := manager.GetPortById(request.request.egress.id);
        egress := found.value;
        next := lookup.value.1;
      } else {
        egress, next := lookup.value.0, lookup.value.1;
        if sameDomain {
          egress := next;
        }
      }
    } else if i == n - 1 {
      ingress := next;
      if request.Connection? && request.request.egress.id !in manager.portLinkMap {
        egressUser := Some(request.request.egress);
        var found := manager.GetPortById(request.request.egress.id);
        egress := found.value;
      } else {
        var lookup := GetPortsByLink(ports, last);
        if lookup.Err? {
          return d, Some(lookup.error);
        }
        egress := lookup.value.1;
      }
    } else {
      ingress := next;
      var lookup := GetPortsByLink(ports, last);
      if lookup.Err? {
        return d, Some(lookup.error);
      }
      egress, next := lookup.value.0, lookup.value.1;
    }
    d, err := Chain(c.segments + [Segment(ingress, egress)], next, ingressUser, egressUser), None;
  }

  /** The first domain's ingress port and the user port it records; a failed assert in its lookup raises. */
  method ChainIngress(c: Chain, links: seq<Hop>, request: RequestFormat, manager: Manager.TopologyManager, ports: Ports)
    returns (entry: Option<string>, user: Option<UserPort>, err: Option<PyError>)
    requires manager.topology.Some? && ports.merged == manager.topology.value && ports.linked == manager.portLinkMap.Keys
    requires |links| > 0
    ensures err == if request.TrafficMatrixFormat? && !LinkAsserted(ports, links[0]) then Some(AssertionError) else None
    ensures (entry, user) ==
      if request.Connection? && IsUserPort(ports, request.request.ingress) then
        (PortById(ports, request.request.ingress.id), Some(request.request.ingress))
      else if request.TrafficMatrixFormat? then (LinkPorts(ports, links[0]).0, c.ingressUser)
      else (PortById(ports, request.request.ingress.id), c.ingressUser)
  {
    user, err := c.ingressUser, None;
    if request.Connection? && request.request.ingress.id !in manager.portLinkMap {
      user := Some(request.request.ingress);
      var found := manager.GetPortById(request.request.ingress.id);
      entry := found.value;
    } else if request.TrafficMatrixFormat? {
      var lookup := GetPortsByLink(ports, links[0]);
      entry := LinkPorts(ports, links[0]).0;
      if lookup.Err? {
        err := Some(lookup.error);
      } else {
        entry := lookup.value.0;
      }
    } else {
      var found := manager.GetPortById(request.request.ingress.id);
      entry := found.value;
    }
  }

  class TEManager {
    /** `topology_manager`. */
    var manager: Manager.TopologyManager
    /** `graph`: the vertices of the solver's graph, `None` until one is generated. */
    var graph: Option<seq<string>>
    /** `_vlan_tags_table`: domain -> port id -> (tag -> holder). */
    var vlanTags: TagsTable

    /** The manager's dictionaries are well formed and every port's tags list each tag once. */
    ghost predicate Valid()
      reads this, manager
    {
      manager.Valid() && TableValid(vlanTags)
    }

    /** `TEManager(None)`: no topology yet, no graph, an empty table. */
    constructor()
      ensures Valid() && fresh(manager)
      ensures graph == None && vlanTags == map[]
      ensures manager.topology == None && manager.topologyMap == Empty() && manager.portMap == Empty()
    {
      manager := new Manager.TopologyManager();
      graph := None;
      vlanTags := map[];
    }

    /**
     * The rest of `TEManager(topology_data)` with data: add the topology,
     * generate the graph (`None` when there is none) and fill the table
     * from the ports the manager now knows.
     */
    method Load(t: Topology, nodeOf: (Topology, string) -> Option<string>) returns (err: Option<PyError>)
      requires Valid()
      modifies this, manager
      ensures Valid() && manager == old(manager) && manager.AddedBy(t)
      ensures manager.portMap == Merge.PutPorts(old(manager.portMap), AllPorts(t.nodes))
      ensures var g := GraphOf(manager.topology, nodeOf);
        && (g.Err? ==> err == Some(g.error) && graph == old(graph) && vlanTags == old(vlanTags))
        && (g.Ok? ==>
              && graph == g.value
              && var refresh := RefreshDomain(old(vlanTags), t.id, manager.portMap);
              && vlanTags == old(vlanTags)[t.id := refresh.table] && err == refresh.error)
    {
      manager.AddTopology(t);
      var g := GenerateGraphTe(nodeOf);
      if g.Err? {
        return Some(g.error);
      }
      graph := g.value;
      err := UpdateVlanTagsTable(t.id, manager.portMap);
    }

    /** `add_topology(t)`: the manager adds it, then the table learns its ports' tags. */
    method AddTopology(t: Topology) returns (err: Option<PyError>)
      requires Valid()
      modifies this, manager
      ensures Valid() && manager == old(manager) && graph == old(graph) && manager.AddedBy(t)
      ensures manager.portMap == Merge.PutPorts(old(manager.portMap), AllPorts(t.nodes))
      ensures var refresh := RefreshDomain(old(vlanTags), t.id, manager.portMap);
        vlanTags == old(vlanTags)[t.id := refresh.table] && err == refresh.error
    {
      manager.AddTopology(t);
      err := UpdateVlanTagsTable(t.id, manager.portMap);
    }

    /**
     * `update_topology(t)`: the manager updates it; an exception there
     * leaves the table alone, otherwise the table learns the ports' tags,
     * keeping what a raising label range had already added.
     */
    method UpdateTopology(t: Topology) returns (err: Option<PyError>)
      requires Valid()
      modifies this, manager
      ensures Valid() && manager == old(manager) && graph == old(graph)
      ensures manager.UpdatedBy(t, Manager.UpdateError(old(manager.topology), old(manager.portLinkMap), t))
      ensures Manager.UpdateError(old(manager.topology), old(manager.portLinkMap), t).Some? ==>
        err == Manager.UpdateError(old(manager.topology), old(manager.portLinkMap), t) && vlanTags == old(vlanTags)
      ensures Manager.UpdateError(old(manager.topology), old(manager.portLinkMap), t).None? ==>
        && manager.portMap == Merge.PutPorts(old(manager.portMap), AllPorts(t.nodes))
        && var refresh := RefreshDomain(old(vlanTags), t.id, manager.portMap);
        && vlanTags == old(vlanTags)[t.id := refresh.table] && err == refresh.error
    {
      err := manager.UpdateTopology(t);
      if err.Some? {
        return;
      }
      err := UpdateVlanTagsTable(t.id, manager.portMap);
    }

    /**
     * `generate_graph_te()`: the manager's graph with its vertices
     * numbered; the graph is kept when there is a new one.
     */
    method GenerateGraphTe(nodeOf: (Topology, string) -> Option<string>) returns (r: Result<Option<seq<string>>, PyError>)
      requires Valid()
      modifies this
      ensures Valid() && manager == old(manager) && vlanTags == old(vlanTags)
      ensures r == GraphOf(manager.topology, nodeOf)
      ensures graph == if r.Ok? && r.value.Some? then r.value else old(graph)
    {
      var edges := manager.GenerateGraph(nodeOf);
      match edges
      case Err(e) =>
        return Err(e);
      case Ok(None) =>
        return Ok(None);
      case Ok(Some(es)) =>
        graph := Some(Vertices(es));
        return Ok(graph);
    }

    /**
     * `_update_vlan_tags_table(domain, ports)`: the domain's table gets,
     * for every port with a label range, every label as a free tag unless
     * it is there already; the first range that raises stops the loop and
     * leaves what was added so far.
     */
    method UpdateVlanTagsTable(domain: string, ports: OMap<string, Port>) returns (err: Option<PyError>)
      requires Valid() && ports.Valid()
      modifies this
      ensures Valid() && manager == old(manager) && graph == old(graph)
      ensures var refresh := RefreshDomain(old(vlanTags), domain, ports);
        vlanTags == old(vlanTags)[domain := refresh.table] && err == refresh.error
    {
      var dt: DomainTable := if domain in vlanTags then vlanTags[domain] else map[];
      var refresh := RefreshPortTags(dt, ports);
      assert DomainValid(refresh.table) by {
        RefreshKeepsValid(dt, ports, |ports.keys|);
      }
      vlanTags := vlanTags[domain := refresh.table];
      return refresh.error;
    }

    /**
     * `_reserve_vlan(domain, port, request_id, tag)`: grant the tag asked
     * for when it is free, or else the last free tag the scan meets, and
     * record the request as its holder.
     */
    method ReserveVlan(domain: DomainId, portId: Option<string>, req: RequestId, tag: Option<int>) returns (granted: Option<int>)
      requires Valid()
      modifies this
      ensures Valid() && manager == old(manager) && graph == old(graph)
      ensures Reservation(granted, vlanTags) == Reserve(old(vlanTags), domain, portId, req, tag)
    {
      if portId.None? || domain.None? || domain.value !in vlanTags {
        return None;
      }
      var dt := vlanTags[domain.value];
      if portId.value !in dt {
        return None;
      }
      var t := dt[portId.value];
      var available: Option<int> := None;
      if tag.None? {
        for i := 0 to |t.keys|
          invariant available == if LastFree(t, i).Some? then t.keys[LastFree(t, i).value] else None
        {
          if t.values[t.keys[i]] == None {
            available := t.keys[i];
          }
        }
      } else if tag in t.values && t.values[tag] == None {
        available := tag;
      } else {
        return None;
      }
      ReserveKeepsValid(vlanTags, domain, portId, req, tag);
      vlanTags := vlanTags[domain.value := dt[portId.value := t.Put(available, Some(req))]];
      return available;
    }

    /** `unreserve_vlan(request_id)`: every tag the request holds, in every domain and port, becomes free. */
    method UnreserveVlan(req: RequestId)
      requires Valid()
      modifies this
      ensures Valid() && manager == old(manager) && graph == old(graph)
      ensures vlanTags == Release(old(vlanTags), req)
    {
      var T := vlanTags;
      var todo := vlanTags.Keys;
      while todo != {}
        invariant todo <= T.Keys && vlanTags.Keys == T.Keys
        invariant graph == old(graph) && manager == old(manager)
        invariant forall d | d in T :: vlanTags[d] == if d in todo then T[d] else ReleaseDomain(T[d], req)
        decreases todo
      {
        var d :| d in todo;
        var dt := ReleaseDomainTags(T[d], req);
        vlanTags := vlanTags[d := dt];
        todo := todo - {d};
      }
      ReleaseExact(T, req);
    }

    /**
     * One iteration of `_reserve_vlan_breakdown`: reserve the segment's
     * ingress tag, then its egress tag; a port the port -> link map does
     * not know borrows the other end's tag; a missing tag raises.
     */
    method ReserveDomainSegment(domain: DomainId, s: Segment, req: RequestId,
                                ingressUser: Option<UserPort>, egressUser: Option<UserPort>) returns (o: SegmentOutcome)
      requires Valid()
      modifies this
      ensures Valid() && manager == old(manager) && graph == old(graph)
      ensures (o, vlanTags) == ReserveSegment(old(vlanTags), domain, s, req, ingressUser, egressUser, manager.portLinkMap.Keys)
    {
      if s.ingress.None? || s.egress.None? {
        return MissingPort;
      }
      var ingressId, egressId := s.ingress.value, s.egress.value;
      var ingressTag := ReserveVlan(domain, s.ingress, req, UserTag(ingressUser, ingressId));
      var egressTag := ReserveVlan(domain, s.egress, req, UserTag(egressUser, egressId));
      o := SettleOutcome(domain, ingressId, egressId, ingressTag, egressTag);
    }

    /** The borrowing of a user port's tag, and the record (`SettleTags`). */
    method SettleOutcome(domain: DomainId, ingressId: string, egressId: string,
                         ingressGranted: Option<int>, egressGranted: Option<int>) returns (o: SegmentOutcome)
      requires manager.Valid()
      ensures o == SettleTags(domain, ingressId, egressId, ingressGranted, egressGranted, manager.portLinkMap.Keys)
    {
      var ingressTag, egressTag := ingressGranted, egressGranted;
      if ingressId !in manager.portLinkMap && ingressTag.None? {
        ingressTag := egressTag;
      }
      if egressId !in manager.portLinkMap && egressTag.None? {
        egressTag := ingressTag;
      }
      if ingressTag.None? || egressTag.None? {
        return Raised(AssertionError);
      }
      if domain.None? {
        return Raised(AttributeError);
      }
      return Reserved(Tagged(domain.value, TaggedPort(ingressId, ingressTag.value), TaggedPort(egressId, egressTag.value)));
    }

    /** One more domain of `_reserve_vlan_breakdown`, after `i` domains went through. */
    method ReserveNext(domains: seq<DomainId>, segments: seq<Segment>, i: nat, req: RequestId,
                       ingressUser: Option<UserPort>, egressUser: Option<UserPort>,
                       T: TagsTable, linked: set<string>, records: seq<Tagged>) returns (p: Progress)
      requires Valid() && i < |domains| == |segments| && linked == manager.portLinkMap.Keys
      requires (Going(records), vlanTags) == ReservePrefix(T, domains, segments, i, req, ingressUser, egressUser, linked)
      modifies this
      ensures Valid() && manager == old(manager) && graph == old(graph) && linked == manager.portLinkMap.Keys
      ensures (p, vlanTags) == ReservePrefix(T, domains, segments, i + 1, req, ingressUser, egressUser, linked)
    {
      var o := ReserveDomainSegment(domains[i], segments[i], req, ingressUser, egressUser);
      match o
      case MissingPort => p := Stopped;
      case Raised(e) => p := Failed(e);
      case Reserved(record) => p := Going(records + [record]);
    }

    /**
     * `_reserve_vlan_breakdown`: reserve both ends of each domain's
     * segment in turn; `Stopped` when a segment port is missing, `Failed`
     * when a tag cannot be found (`_unreserve_vlan` is an `assert False`
     * stub), with what was reserved before left in place.
     */
    method ReserveVlanBreakdown(domains: seq<DomainId>, segments: seq<Segment>, req: RequestId,
                                ingressUser: Option<UserPort>, egressUser: Option<UserPort>) returns (p: Progress)
      requires Valid() && |domains| == |segments|
      modifies this
      ensures Valid() && manager == old(manager) && graph == old(graph)
      ensures (p, vlanTags) == ReservePrefix(old(vlanTags), domains, segments, |segments|, req, ingressUser, egressUser,
                                             manager.portLinkMap.Keys)
    {
      var T := vlanTags;
      var linked := manager.portLinkMap.Keys;
      var records: seq<Tagged> := [];
      for i := 0 to |segments|
        invariant Valid() && manager == old(manager) && graph == old(graph) && linked == manager.portLinkMap.Keys
        invariant (Going(records), vlanTags) == ReservePrefix(T, domains, segments, i, req, ingressUser, egressUser, linked)
      {
        var step := ReserveNext(domains, segments, i, req, ingressUser, egressUser, T, linked, records);
        if !step.Going? {
          ReservePrefixSticks(T, domains, segments, i + 1, |segments|, req, ingressUser, egressUser, linked);
          return step;
        }
        records := step.records;
      }
      return Going(records);
    }

    /**
     * `generate_connection_breakdown(solution, request)`: group the path
     * into one run per domain, chain the segments' ports, and reserve
     * their VLANs.
     */
    method GenerateConnectionBreakdown(solution: Option<ConnectionSolution>, request: RequestFormat,
                                       nodeOf: (Topology, string) -> Option<string>,
                                       portsByLink: (Topology, string, string) -> Option<(string, string, string, string)>)
      returns (r: Result<Option<seq<Tagged>>, PyError>)
      requires Valid()
      modifies this
      ensures Valid() && manager == old(manager) && graph == old(graph)
      ensures (r, vlanTags) == ConnectionBreakdown(old(vlanTags), graph, manager.topologyMap, manager.topology,
                                                   manager.portLinkMap.Keys, portsByLink, nodeOf, solution, request)
    {
      if solution.None? || solution.value.connectionMap.None? {
        return Ok(None);
      }
      var paths := solution.value.connectionMap.value;
      var grouped := GroupSolution(graph, manager, paths);
      if grouped.Err? {
        return Err(grouped.error);
      }
      var breakdown := grouped.value;
      var sameDomain := false;
      if request.Connection? {
        var same := manager.AreTwoPortsSameDomain(request.request.ingress.id, request.request.egress.id, nodeOf);
        if same.Err? {
          return Err(same.error);
        }
        sameDomain := same.value;
      }
      var runs := RunsOf(breakdown);
      GroupPathsRunsNonEmpty(graph, manager.topologyMap, paths);
      var chain := ChainRuns(runs, request, sameDomain, manager, portsByLink);
      if chain.Err? {
        return Err(chain.error);
      }
      if |runs| == 0 {
        return Ok(Some([]));
      }
      var p := ReserveVlanBreakdown(breakdown.keys, chain.value.segments, solution.value.requestId,
                                    chain.value.ingressUser, chain.value.egressUser);
      match p
      case Going(records) => return Ok(Some(records));
      case Stopped => return Ok(None);
      case Failed(e) => return Err(e);
    }

    /** `generate_traffic_matrix(request)`. */
    method GenerateTrafficMatrix(req: ConnectionRequest, nodeOf: (Topology, string) -> Option<string>)
      returns (r: Result<Option<TrafficMatrix>, PyError>)
      ensures r == TrafficMatrixOf(manager.topology, graph, nodeOf, req)
    {
      if manager.topology.None? {
        return Err(AttributeError);
      }
      var ingressNode := nodeOf(manager.topology.value, req.ingress.id);
      var egressNode := nodeOf(manager.topology.value, req.egress.id);
      if ingressNode.None? || egressNode.None? {
        return Ok(None);
      }
      if graph.None? {
        return Err(AttributeError);
      }
      var source := FirstVertex(graph.value, ingressNode.value);
      var destination := FirstVertex(graph.value, egressNode.value);
      if source.None? || destination.None? {
        return Ok(None);
      }
      var bandwidth := req.bandwidth.GetOr(0);
      var latency := if req.latency.None? || req.latency.value == 0 then Unbounded else Finite(req.latency.value);
      return Ok(Some(TrafficMatrix([TrafficRequest(source.value, destination.value, bandwidth, latency)], req.id)));
    }
  }
}
