/**
 * `TopologyManager`: the merged topology of all domains, the stored domain
 * topologies by id, the port id -> port and port id -> link indices, and the
 * count of inter-domain links found. Parsing the topology documents happens
 * before these methods: they receive the parsed `Topology`.
 */
module Manager {
  import opened Wrappers
  import opened Exceptions
  import opened OrderedMaps
  import opened TopologyModel
  import Interdomain
  import Versions
  import opened Merge

  /** The nested loop that maps each port id of some links to its link. */
  method BuildPortDict(links: seq<Link>) returns (d: map<string, Link>)
    ensures d == PortDict(links)
  {
    d := map[];
    for i := 0 to |links|
      invariant d == PortDict(links[..i])
    {
      d := PutLinkPorts(d, links[i]);
      PortDictNext(links, i);
    }
    assert links[..|links|] == links;
  }

  /** The inner loop of the port dictionary: each port of one link is mapped to it. */
  method PutLinkPorts(d: map<string, Link>, link: Link) returns (d': map<string, Link>)
    ensures d' == d + map p | p in link.ports :: link
  {
    d' := d;
    for j := 0 to |link.ports|
      invariant d' == d + map p | p in link.ports[..j] :: link
    {
      assert link.ports[..j + 1] == link.ports[..j] + [link.ports[j]];
      d' := d'[link.ports[j] := link];
    }
    assert link.ports[..|link.ports|] == link.ports;
  }

  /**
   * What `update_topology(t)` raises: `AttributeError` without a merged
   * topology, else the `KeyError` of a `pop` while detaching, if any.
   */
  function UpdateError(topology: Option<Topology>, portLinks: map<string, Link>, t: Topology): Option<PyError> {
    if topology.None? then Some(AttributeError)
    else DetachLinks(Detach(topology.value.links, portLinks, None), t.links).error
  }

  /** The key order the port dictionary of `inter_domain_check` takes as its loop over the links fills it. */
  method BuildPortOrder(links: seq<Link>) returns (keys: seq<string>)
    ensures keys == PortOrder(links)
  {
    keys := [];
    for i := 0 to |links|
      invariant keys == PortOrder(links[..i])
    {
      keys := AppendNewPorts(keys, links[i].ports);
      PortOrderNext(links, i);
    }
    assert links[..|links|] == links;
  }

  /** The inner loop over one link's ports: a port not yet a key becomes the last key. */
  method AppendNewPorts(keys: seq<string>, ports: seq<string>) returns (r: seq<string>)
    ensures r == AppendNew(keys, ports)
  {
    r := keys;
    for i := 0 to |ports|
      invariant AppendNew(r, ports[i..]) == AppendNew(keys, ports)
    {
      assert ports[i..][1..] == ports[i + 1..];
      if ports[i] !in r {
        r := r + [ports[i]];
      }
    }
  }

  /**
   * The matching loop of `inter_domain_check` without a merged topology:
   * ports are mapped in key order until one is already mapped, where
   * `remove_link` raises.
   */
  method LearnIncomingPorts(keys: seq<string>, dict: map<string, Link>, m: map<string, Link>) returns (m': map<string, Link>)
    requires forall k | k in keys :: k in dict
    ensures m' == LearnUntilMapped(keys, dict, m)
  {
    m' := m;
    var i := 0;
    while i < |keys| && keys[i] !in m'
      invariant 0 <= i <= |keys|
      invariant LearnUntilMapped(keys[i..], dict, m') == LearnUntilMapped(keys, dict, m)
    {
      assert keys[i..][1..] == keys[i + 1..];
      m' := m'[keys[i] := dict[keys[i]]];
      i := i + 1;
    }
  }

  /** The `for link in links: if link.id == link_id: setattr(...)` loop. */
  method SetLinkProperty(links: seq<Link>, linkId: string, property: LinkProperty) returns (r: seq<Link>)
    ensures r == UpdateLinks(links, linkId, property)
  {
    r := links;
    for i := 0 to |links|
      invariant |r| == |links|
      invariant forall j | 0 <= j < |links| ::
        r[j] == if j < i && links[j].id == linkId then SetProperty(links[j], property) else links[j]
    {
      if r[i].id == linkId {
        r := r[i := SetProperty(r[i], property)];
      }
    }
    UpdateLinksAt(links, linkId, property);
  }

  /**
   * The first loop of `inter_domain_check`: each port of the incoming links
   * that is already mapped drops the link it was mapped to from the merged
   * links, and every port is then mapped to its incoming link.
   */
  method MapIncomingPorts(links: seq<Link>, portLinks: map<string, Link>, dict: map<string, Link>)
    returns (links': seq<Link>, portLinks': map<string, Link>, collided: set<string>)
    ensures collided == Collided(dict, portLinks)
    ensures links' == WithoutLinks(links, StaleLinkIds(dict, portLinks))
    ensures portLinks' == portLinks + dict
  {
    links', portLinks', collided := links, portLinks, {};
    var remaining := dict.Keys;
    WithoutNoLinks(links);
    assert StaleLinkIds(dict - remaining, portLinks) == {};
    while remaining != {}
      invariant remaining <= dict.Keys
      invariant collided == Collided(dict - remaining, portLinks)
      invariant portLinks' == portLinks + (dict - remaining)
      invariant links' == WithoutLinks(links, StaleLinkIds(dict - remaining, portLinks))
      decreases remaining
    {
      var portId :| portId in remaining;
      ghost var ids := StaleLinkIds(dict - remaining, portLinks);
      StaleLinkIdsStep(dict, remaining, portLinks, portId);
      if portId in portLinks' {
        var existing := portLinks'[portId];
        assert existing == portLinks[portId];
        WithoutLinksTwice(links, ids, {existing.id});
        links' := WithoutLinks(links', {existing.id});
        collided := collided + {portId};
      }
      portLinks' := portLinks'[portId := dict[portId]];
      remaining := remaining - {portId};
      assert portLinks' == portLinks + (dict - remaining);
    }
    assert dict - remaining == dict;
  }

  /** The second loop of `inter_domain_check`: each incoming port once per test it passes, in order. */
  method CollectInterdomainPorts(nodes: seq<Node>, collided: set<string>, topologyId: string) returns (ports: seq<Port>)
    ensures ports == InterdomainPorts(AllPorts(nodes), collided, topologyId)
  {
    ports := [];
    for i := 0 to |nodes|
      invariant ports == InterdomainPorts(AllPorts(nodes[..i]), collided, topologyId)
    {
      var hits := CollectNodePorts(nodes[i].ports, collided, topologyId);
      AllPortsNext(nodes, i);
      InterdomainPortsAppend(AllPorts(nodes[..i]), nodes[i].ports, collided, topologyId);
      ports := ports + hits;
    }
    assert nodes[..|nodes|] == nodes;
  }

  /** The inner loop of `inter_domain_check`, over the ports of one node. */
  method CollectNodePorts(nodePorts: seq<Port>, collided: set<string>, topologyId: string) returns (ports: seq<Port>)
    ensures ports == InterdomainPorts(nodePorts, collided, topologyId)
  {
    ports := [];
    for j := 0 to |nodePorts|
      invariant ports == InterdomainPorts(nodePorts[..j], collided, topologyId)
    {
      var port := nodePorts[j];
      InterdomainPortsNext(nodePorts, j, collided, topologyId);
      ghost var seen := ports;
      if port.id in collided {
        ports := ports + [port];
      }
      if Interdomain.IsInterdomainPort(port.nni, topologyId) {
        ports := ports + [port];
      }
      assert ports == seen + PortHits(port, collided, topologyId);
    }
    assert nodePorts[..|nodePorts|] == nodePorts;
  }

  /** The `remove_node` calls of `update_topology`, one per incoming node. */
  method RemoveNodes(nodes: seq<Node>, incoming: seq<Node>) returns (r: seq<Node>)
    ensures r == WithoutNodes(nodes, NodeIds(incoming))
  {
    r := nodes;
    WithoutNoNodes(nodes);
    assert NodeIds(incoming[..0]) == {};
    for i := 0 to |incoming|
      invariant r == WithoutNodes(nodes, NodeIds(incoming[..i]))
    {
      WithoutNodesTwice(nodes, NodeIds(incoming[..i]), {incoming[i].id});
      assert incoming[..i + 1] == incoming[..i] + [incoming[i]];
      assert NodeIds(incoming[..i + 1]) == NodeIds(incoming[..i]) + {incoming[i].id};
      r := WithoutNodes(r, {incoming[i].id});
    }
    assert incoming[..|incoming|] == incoming;
  }

  /** The loop of `update_topology` over the links runs to its end: every link is inter-domain for the map `m`. */
  method AllInterdomain(links: seq<Link>, m: map<string, Link>) returns (b: bool)
    ensures b <==> forall l | l in links :: Merge.IsLinkInterdomain(l, m)
  {
    for i := 0 to |links|
      invariant forall j | 0 <= j < i :: Merge.IsLinkInterdomain(links[j], m)
    {
      var interdomain := HasUnmappedPort(links[i], m);
      if !interdomain {
        return false;
      }
    }
    return true;
  }

  /** The loop of `is_link_interdomain`. */
  method HasUnmappedPort(link: Link, portLinks: map<string, Link>) returns (b: bool)
    ensures b == Merge.IsLinkInterdomain(link, portLinks)
  {
    for i := 0 to |link.ports|
      invariant forall j | 0 <= j < i :: link.ports[j] in portLinks
    {
      if link.ports[i] !in portLinks {
        return true;
      }
    }
    return false;
  }

  /** The `port_link_map.pop(port_id)` loop over one link's ports. */
  method PopLinkPorts(m: map<string, Link>, ports: seq<string>) returns (m': map<string, Link>, err: Option<PyError>)
    ensures (m', err) == PopPorts(m, ports)
  {
    m', err := m, None;
    var j := 0;
    while j < |ports|
      invariant 0 <= j <= |ports|
      invariant PopPorts(m, ports) == PopPorts(m', ports[j..])
    {
      assert ports[j..][1..] == ports[j + 1..];
      if ports[j] !in m' {
        return m', Some(KeyError);
      }
      m' := m' - {ports[j]};
      j := j + 1;
    }
  }

  /**
   * The link loop of `update_topology`: each incoming link that is not
   * inter-domain leaves the merged links and has its ports unmapped; the
   * first `KeyError` stops the loop.
   */
  method DetachIncoming(links: seq<Link>, portLinks: map<string, Link>, incoming: seq<Link>) returns (d: Detach)
    ensures d == DetachLinks(Detach(links, portLinks, None), incoming)
  {
    d := Detach(links, portLinks, None);
    for k := 0 to |incoming|
      invariant DetachLinks(d, incoming[k..]) == DetachLinks(Detach(links, portLinks, None), incoming)
    {
      assert incoming[k..][1..] == incoming[k + 1..];
      if d.error.Some? {
        continue;
      }
      var link := incoming[k];
      var interdomain := HasUnmappedPort(link, d.portLinks);
      if !interdomain {
        var m, e := PopLinkPorts(d.portLinks, link.ports);
        d := Detach(WithoutLinks(d.links, {link.id}), m, e);
      }
    }
    assert incoming[|incoming|..] == [];
  }

  /** The loop of `update_link_property` over the stored domain topologies. */
  method UpdateStoredLinks(topologies: OMap<string, Topology>, linkId: string, property: LinkProperty)
    returns (r: OMap<string, Topology>)
    requires topologies.Valid()
    ensures r == UpdateStored(topologies, linkId, property)
  {
    var keys := topologies.keys;
    var values := topologies.values;
    for i := 0 to |keys|
      invariant values.Keys == topologies.values.Keys
      invariant forall j | 0 <= j < |keys| ::
        values[keys[j]] == if j < i then Updated(topologies.values[keys[j]], linkId, property) else topologies.values[keys[j]]
    {
      var id := keys[i];
      var t := topologies.values[id];
      var links := SetLinkProperty(t.links, linkId, property);
      assert forall j | 0 <= j < |keys| && j != i :: keys[j] != id;
      values := values[id := t.(links := links)];
    }
    forall k | k in values
      ensures values[k] == UpdateStored(topologies, linkId, property).values[k]
    {
      var j :| 0 <= j < |keys| && keys[j] == k;
    }
    r := OMap(keys, values);
  }

  /** The inner `_port_map[port.id] = port` loop over one node's ports. */
  method PutNodePorts(m: OMap<string, Port>, ports: seq<Port>) returns (m': OMap<string, Port>)
    ensures m' == PutPorts(m, ports)
  {
    m' := m;
    for j := 0 to |ports|
      invariant m' == PutPorts(m, ports[..j])
    {
      PutPortsNext(m, ports, j);
      m' := m'.Put(ports[j].id, ports[j]);
    }
    assert ports[..|ports|] == ports;
  }

  class TopologyManager {
    /** `_topology`: the merged topology, `None` until the first domain arrives. */
    var topology: Option<Topology>
    /** `_topology_map`: each domain's own topology, by topology id. */
    var topologyMap: OMap<string, Topology>
    /** `_port_map`: port id -> port, over the nodes of every domain. */
    var portMap: OMap<string, Port>
    /** `_port_link_map`: port id -> the link it was last seen on. */
    var portLinkMap: map<string, Link>
    /** `_num_interdomain_link`. */
    var numInterdomainLink: int
    /** The two numbers of the merged topology's version. */
    ghost var major: int
    ghost var minor: int

    /** The dictionaries list each key once, and the version is `major.minor`. */
    ghost predicate Valid()
      reads this
    {
      && topologyMap.Valid() && portMap.Valid()
      && (topology.Some? ==> topology.value.version == Versions.VersionString(major, minor))
    }

    constructor()
      ensures Valid()
      ensures topology == None && topologyMap == Empty() && portMap == Empty()
      ensures portLinkMap == map[] && numInterdomainLink == 0
    {
      topology := None;
      topologyMap := Empty();
      portMap := Empty();
      portLinkMap := map[];
      numInterdomainLink := 0;
      major, minor := 1, 0;
    }

    /** `update_version(sub)`: the merged version never fails to parse, since it is always `major.minor`. */
    method UpdateVersion(sub: bool)
      requires Valid() && topology.Some?
      modifies this
      ensures Valid()
      ensures (major, minor) == if sub then (old(major), old(minor) + 1) else (old(major) + 1, 0)
      ensures topology == Some(old(topology).value.(version := Versions.VersionString(major, minor)))
      ensures topologyMap == old(topologyMap) && portMap == old(portMap)
      ensures portLinkMap == old(portLinkMap) && numInterdomainLink == old(numInterdomainLink)
    {
      Versions.UpdateVersionBumps(major, minor, sub);
      var v := Versions.UpdateVersion(topology.value.version, sub).value;
      topology := Some(topology.value.(version := v));
      if sub {
        minor := minor + 1;
      } else {
        major, minor := major + 1, 0;
      }
    }

    /** The `_port_map[port.id] = port` loop over the nodes of a topology. */
    method UpdatePortMap(nodes: seq<Node>)
      modifies this
      ensures portMap == PutPorts(old(portMap), AllPorts(nodes))
      ensures topology == old(topology) && topologyMap == old(topologyMap)
      ensures portLinkMap == old(portLinkMap) && numInterdomainLink == old(numInterdomainLink)
      ensures major == old(major) && minor == old(minor)
    {
      var m := portMap;
      for i := 0 to |nodes|
        invariant unchanged(this)
        invariant m == PutPorts(portMap, AllPorts(nodes[..i]))
      {
        var ports := nodes[i].ports;
        m := PutNodePorts(m, ports);
        AllPortsNext(nodes, i);
        PutPortsAppend(portMap, AllPorts(nodes[..i]), ports);
      }
      assert nodes[..|nodes|] == nodes;
      portMap := m;
    }

    /**
     * `inter_domain_check(t)`: maps every port of the incoming links to its
     * new link, removes from the merged topology the links those ports were
     * mapped to before, and returns the incoming ports that collided or
     * whose `nni` faces another domain.
     */
    method InterDomainCheck(t: Topology) returns (ports: seq<Port>)
      requires topology.Some?
      modifies this
      ensures portLinkMap == old(portLinkMap) + PortDict(t.links)
      ensures topology == Some(old(topology).value.(links :=
        WithoutLinks(old(topology).value.links, StaleLinkIds(PortDict(t.links), old(portLinkMap)))))
      ensures ports == InterdomainPorts(AllPorts(t.nodes), Collided(PortDict(t.links), old(portLinkMap)), t.id)
      ensures topologyMap == old(topologyMap) && portMap == old(portMap)
      ensures numInterdomainLink == old(numInterdomainLink) && major == old(major) && minor == old(minor)
    {
      var dict := BuildPortDict(t.links);
      var links, portLinks, collided := MapIncomingPorts(topology.value.links, portLinkMap, dict);
      ports := CollectInterdomainPorts(t.nodes, collided, t.id);
      topology := Some(topology.value.(links := links));
      portLinkMap := portLinks;
    }

    /** `create_update_interdomain_link(port1, port2)` on the merged topology. */
    method CreateUpdateInterdomainLink(port1: Port, port2: Port)
      requires topology.Some?
      modifies this
      ensures topology == Some(old(topology).value.(links := Interdomain.CreateOrUpdate(old(topology).value.links, port1, port2)))
      ensures topologyMap == old(topologyMap) && portMap == old(portMap) && portLinkMap == old(portLinkMap)
      ensures numInterdomainLink == old(numInterdomainLink) && major == old(major) && minor == old(minor)
    {
      var (low, high) := Interdomain.Ordered(port1, port2);
      var id := Interdomain.LinkId(low, high);
      var links := topology.value.links;
      var k := 0;
      while k < |links| && links[k].id != id
        invariant 0 <= k <= |links|
        invariant forall j | 0 <= j < k :: links[j].id != id
      {
        k := k + 1;
      }
      Interdomain.CombinedSymmetric(port1.status, port2.status);
      Interdomain.CombinedSymmetric(port1.state, port2.state);
      var status := Some(Interdomain.CombinedStatus(low.status, high.status));
      var state := Some(Interdomain.CombinedState(low.state, high.state));
      if k < |links| {
        Interdomain.FindLinkUnique(links, id, k);
        links := links[k := links[k].(status := status, state := state)];
      } else {
        links := links + [Interdomain.NewLink(low, high).(status := status, state := state)];
      }
      topology := Some(topology.value.(links := links));
    }

    /** `add_inter_domain_links`: joins each port to the port its `nni` names, when that one names it back. */
    method AddInterDomainLinks(ports: seq<Port>)
      requires topology.Some?
      modifies this
      ensures topology == Some(old(topology).value.(links := LinkAll(old(topology).value.links, portMap, ports)))
      ensures topologyMap == old(topologyMap) && portMap == old(portMap) && portLinkMap == old(portLinkMap)
      ensures numInterdomainLink == old(numInterdomainLink) && major == old(major) && minor == old(minor)
    {
      for i := 0 to |ports|
        invariant topology == Some(old(topology).value.(links := LinkAll(old(topology).value.links, portMap, ports[..i])))
        invariant topologyMap == old(topologyMap) && portMap == old(portMap) && portLinkMap == old(portLinkMap)
        invariant numInterdomainLink == old(numInterdomainLink) && major == old(major) && minor == old(minor)
      {
        var port := ports[i];
        assert ports[..i + 1][..i] == ports[..i];
        var other := if port.nni.Some? then portMap.Get(port.nni.value) else None;
        if other.None? || other.value.nni != Some(port.id) {
          continue;
        }
        CreateUpdateInterdomainLink(port, other.value);
      }
      assert ports[..|ports|] == ports;
    }

    /**
     * The state `add_topology(t)` leaves: the domain is stored and its
     * ports and links indexed; the first domain becomes the merged
     * topology under the SDX id with the initial version; a later one has
     * the links its incoming ports were mapped to removed, its nodes and
     * links appended, its facing ports joined and counted, and bumps the
     * major version.
     */
    twostate predicate AddedBy(t: Topology)
      reads this
    {
      && topologyMap == old(topologyMap).Put(t.id, t)
      && portMap == PutPorts(old(portMap), AllPorts(t.nodes))
      && portLinkMap == old(portLinkMap) + PortDict(t.links)
      && (old(topology).None? ==>
            && topology.Some? && topology.value.id == Interdomain.TopologyPrefix
            && topology.value.nodes == t.nodes && topology.value.links == t.links
            && numInterdomainLink == old(numInterdomainLink)
            && (major, minor) == (1, 0))
      && (old(topology).Some? ==>
            var t0 := old(topology).value;
            var dict := PortDict(t.links);
            var found := InterdomainPorts(AllPorts(t.nodes), Collided(dict, old(portLinkMap)), t.id);
            && topology.Some? && topology.value.id == t0.id
            && topology.value.nodes == t0.nodes + t.nodes
            && topology.value.links == LinkAll(WithoutLinks(t0.links, StaleLinkIds(dict, old(portLinkMap))) + t.links, portMap, found)
            && numInterdomainLink == old(numInterdomainLink) + |found|
            && (major, minor) == (old(major) + 1, 0))
    }

    /**
     * `add_topology(t)`: the first domain becomes the merged topology under
     * the SDX id and the initial version; a later one is checked for
     * inter-domain ports, appended, and bumps the major version. Both index
     * the domain's ports and join facing ports.
     */
    method AddTopology(t: Topology)
      requires Valid()
      modifies this
      ensures Valid() && AddedBy(t)
    {
      ghost var before := (portMap, portLinkMap, topology, numInterdomainLink, major);
      topologyMap := topologyMap.Put(t.id, t);
      assert (portMap, portLinkMap, topology, numInterdomainLink, major) == before;
      if topology.None? {
        StartTopology(t);
      } else {
        MergeTopology(t);
      }
    }

    /** The branch of `add_topology` for the first domain, which becomes the merged topology. */
    method StartTopology(t: Topology)
      requires Valid() && topology.None?
      modifies this
      ensures Valid()
      ensures topologyMap == old(topologyMap)
      ensures portMap == PutPorts(old(portMap), AllPorts(t.nodes))
      ensures portLinkMap == old(portLinkMap) + PortDict(t.links)
      ensures topology.Some? && topology.value.id == Interdomain.TopologyPrefix
      ensures topology.value.nodes == t.nodes && topology.value.links == t.links
      ensures numInterdomainLink == old(numInterdomainLink) && (major, minor) == (1, 0)
    {
      Versions.InitialVersionIsWellFormed();
      topology := Some(t.(id := Interdomain.TopologyPrefix, version := Versions.InitialVersion));
      major, minor := 1, 0;
      IndexTopology(t, []);
    }

    /** The branch of `add_topology` for a later domain, with the indexing that follows it. */
    method MergeTopology(t: Topology)
      requires Valid() && topology.Some?
      modifies this
      ensures Valid()
      ensures topologyMap == old(topologyMap)
      ensures portMap == PutPorts(old(portMap), AllPorts(t.nodes))
      ensures portLinkMap == old(portLinkMap) + PortDict(t.links)
      ensures var t0 := old(topology).value;
        var dict := PortDict(t.links);
        var found := InterdomainPorts(AllPorts(t.nodes), Collided(dict, old(portLinkMap)), t.id);
        && topology.Some? && topology.value.id == t0.id
        && topology.value.nodes == t0.nodes + t.nodes
        && topology.value.links == LinkAll(WithoutLinks(t0.links, StaleLinkIds(dict, old(portLinkMap))) + t.links, portMap, found)
        && numInterdomainLink == old(numInterdomainLink) + |found|
        && (major, minor) == (old(major) + 1, 0)
    {
      var found := JoinTopology(t);
      IndexTopology(t, found);
    }

    /**
     * The branch of `add_topology` for a later domain: the inter-domain
     * check, then its nodes and links are appended and the major version
     * is bumped.
     */
    method JoinTopology(t: Topology) returns (found: seq<Port>)
      requires Valid() && topology.Some?
      modifies this
      ensures Valid()
      ensures var t0 := old(topology).value;
        var dict := PortDict(t.links);
        && found == InterdomainPorts(AllPorts(t.nodes), Collided(dict, old(portLinkMap)), t.id)
        && topology.Some? && topology.value.id == t0.id
        && topology.value.nodes == t0.nodes + t.nodes
        && topology.value.links == WithoutLinks(t0.links, StaleLinkIds(dict, old(portLinkMap))) + t.links
        && portLinkMap == old(portLinkMap) + dict
      ensures numInterdomainLink == old(numInterdomainLink) + |found|
      ensures (major, minor) == (old(major) + 1, 0)
      ensures topologyMap == old(topologyMap) && portMap == old(portMap)
    {
      found := InterDomainCheck(t);
      numInterdomainLink := numInterdomainLink + |found|;
      topology := Some(topology.value.(nodes := topology.value.nodes + t.nodes));
      topology := Some(topology.value.(links := topology.value.links + t.links));
      UpdateVersion(false);
    }

    /**
     * The tail of `add_topology`: the port -> link and port indices learn
     * the domain's links and ports, and facing ports are joined.
     */
    method IndexTopology(t: Topology, found: seq<Port>)
      requires Valid() && topology.Some?
      modifies this
      ensures Valid()
      ensures portLinkMap == old(portLinkMap) + PortDict(t.links)
      ensures portMap == PutPorts(old(portMap), AllPorts(t.nodes))
      ensures topology.Some? && topology.value.id == old(topology).value.id
      ensures topology.value.nodes == old(topology).value.nodes
      ensures topology.value.links == LinkAll(old(topology).value.links, portMap, found)
      ensures topologyMap == old(topologyMap) && numInterdomainLink == old(numInterdomainLink)
      ensures major == old(major) && minor == old(minor)
    {
      var dict := BuildPortDict(t.links);
      portLinkMap := portLinkMap + dict;
      UpdatePortMap(t.nodes);
      AddInterDomainLinks(found);
    }

    /** `is_link_interdomain(link)`: some port of the link has no entry in the port -> link map. */
    method IsLinkInterdomain(link: Link) returns (b: bool)
      ensures b == Merge.IsLinkInterdomain(link, portLinkMap)
    {
      b := HasUnmappedPort(link, portLinkMap);
    }

    /**
     * `update_topology(t)` on a manager without a merged topology, after the
     * domain is stored: `remove_node` raises at the first node, `remove_link`
     * at the first link that is not inter-domain; otherwise
     * `inter_domain_check` maps the incoming ports until `remove_link`
     * raises at one already mapped, or `add_nodes` raises after them all.
     */
    method UpdateWithoutTopology(t: Topology) returns (err: Option<PyError>)
      requires topology.None?
      modifies this
      ensures err == Some(AttributeError)
      ensures portLinkMap == if |t.nodes| > 0 || exists l | l in t.links :: !Merge.IsLinkInterdomain(l, old(portLinkMap))
                             then old(portLinkMap)
                             else LearnUntilMapped(PortOrder(t.links), PortDict(t.links), old(portLinkMap))
      ensures topology == None && topologyMap == old(topologyMap) && portMap == old(portMap)
      ensures numInterdomainLink == old(numInterdomainLink) && major == old(major) && minor == old(minor)
    {
      if |t.nodes| > 0 {
        return Some(AttributeError);
      }
      var interdomain := AllInterdomain(t.links, portLinkMap);
      if !interdomain {
        return Some(AttributeError);
      }
      var dict := BuildPortDict(t.links);
      var keys := BuildPortOrder(t.links);
      portLinkMap := LearnIncomingPorts(keys, dict, portLinkMap);
      return Some(AttributeError);
    }

    /**
     * The state `update_topology(t)` leaves and what it raises: the domain
     * is stored; without a merged topology only the port -> link map may
     * learn incoming ports before `AttributeError`; otherwise the domain's
     * nodes and non-inter-domain links leave the merged topology with their
     * ports unmapped, and unless a `pop` raised `KeyError` the domain is
     * appended as `add_topology` appends a later domain and the minor version
     * is bumped, with three differences: no inter-domain port is counted,
     * the port -> link map learns only what `inter_domain_check` maps, and
     * facing ports are joined before the port map learns the domain.
     */
    twostate predicate UpdatedBy(t: Topology, new err: Option<PyError>)
      reads this
    {
      && topologyMap == old(topologyMap).Put(t.id, t)
      && numInterdomainLink == old(numInterdomainLink)
      && err == UpdateError(old(topology), old(portLinkMap), t)
      && (old(topology).None? ==>
            && err == Some(AttributeError) && topology == None && portMap == old(portMap)
            && major == old(major) && minor == old(minor)
            && portLinkMap == if |t.nodes| > 0 || exists l | l in t.links :: !Merge.IsLinkInterdomain(l, old(portLinkMap))
                              then old(portLinkMap)
                              else LearnUntilMapped(PortOrder(t.links), PortDict(t.links), old(portLinkMap)))
      && (old(topology).Some? ==>
            var t0 := old(topology).value;
            var nodes := WithoutNodes(t0.nodes, NodeIds(t.nodes));
            var det := DetachLinks(Detach(t0.links, old(portLinkMap), None), t.links);
            && (err.Some? ==>
                  && topology == Some(t0.(nodes := nodes, links := det.links))
                  && portLinkMap == det.portLinks && portMap == old(portMap)
                  && major == old(major) && minor == old(minor))
            && (err.None? ==>
                  var dict := PortDict(t.links);
                  var found := InterdomainPorts(AllPorts(t.nodes), Collided(dict, det.portLinks), t.id);
                  && topology == Some(t0.(nodes := nodes + t.nodes,
                                          links := LinkAll(WithoutLinks(det.links, StaleLinkIds(dict, det.portLinks)) + t.links,
                                                           old(portMap), found),
                                          version := Versions.VersionString(old(major), old(minor) + 1)))
                  && portLinkMap == det.portLinks + dict
                  && portMap == PutPorts(old(portMap), AllPorts(t.nodes))
                  && major == old(major) && minor == old(minor) + 1))
    }

    /**
     * `update_topology(t)`: stores the domain, removes its nodes and its
     * links that are not inter-domain (unmapping their ports) from the
     * merged topology, then re-adds them as `add_topology` does and bumps
     * the minor version. A `pop` of a port already unmapped raises `KeyError`
     * and stops the update where it is.
     */
    method UpdateTopology(t: Topology) returns (err: Option<PyError>)
      requires Valid()
      modifies this
      ensures Valid()
      ensures UpdatedBy(t, err)
    {
      topologyMap := topologyMap.Put(t.id, t);
      if topology.None? {
        err := UpdateWithoutTopology(t);
        return;
      }
      var nodes := RemoveNodes(topology.value.nodes, t.nodes);
      var d := DetachIncoming(topology.value.links, portLinkMap, t.links);
      topology := Some(topology.value.(nodes := nodes, links := d.links));
      portLinkMap := d.portLinks;
      if d.error.Some? {
        return d.error;
      }
      var found := InterDomainCheck(t);
      topology := Some(topology.value.(nodes := topology.value.nodes + t.nodes));
      topology := Some(topology.value.(links := topology.value.links + t.links));
      AddInterDomainLinks(found);
      UpdatePortMap(t.nodes);
      UpdateVersion(true);
      return None;
    }

    /** `remove_topology(id)`: forgets the domain and bumps the major version; the merged topology keeps its nodes and links. */
    method RemoveTopology(id: string) returns (err: Option<PyError>)
      requires Valid()
      modifies this
      ensures Valid()
      ensures topologyMap == old(topologyMap).Remove(id)
      ensures old(topology).None? ==> err == Some(AttributeError) && topology == None
      ensures old(topology).Some? ==>
        && err == None
        && topology == Some(old(topology).value.(version := Versions.VersionString(old(major) + 1, 0)))
      ensures portMap == old(portMap) && portLinkMap == old(portLinkMap) && numInterdomainLink == old(numInterdomainLink)
    {
      topologyMap := topologyMap.Remove(id);
      if topology.None? {
        return Some(AttributeError);
      }
      UpdateVersion(false);
      return None;
    }

    /**
     * `update_link_property(link_id, property, value)`: sets the property on
     * every link with that id, in each stored domain topology and in the
     * merged topology, then bumps the minor version.
     */
    method UpdateLinkProperty(linkId: string, property: LinkProperty) returns (err: Option<PyError>)
      requires Valid()
      modifies this
      ensures Valid()
      ensures topologyMap == UpdateStored(old(topologyMap), linkId, property)
      ensures old(topology).None? ==> err == Some(AttributeError) && topology == None
      ensures old(topology).Some? ==>
        && err == None
        && topology == Some(old(topology).value.(links := UpdateLinks(old(topology).value.links, linkId, property),
                                                 version := Versions.VersionString(old(major), old(minor) + 1)))
      ensures portMap == old(portMap) && portLinkMap == old(portLinkMap) && numInterdomainLink == old(numInterdomainLink)
    {
      topologyMap := UpdateStoredLinks(topologyMap, linkId, property);
      if topology.None? {
        return Some(AttributeError);
      }
      var links := SetLinkProperty(topology.value.links, linkId, property);
      topology := Some(topology.value.(links := links));
      UpdateVersion(true);
      return None;
    }

    /** `get_domain_name(node_id)`. */
    method GetDomainName(nodeId: string) returns (d: Option<string>)
      requires Valid()
      ensures d == DomainOf(topologyMap, nodeId)
    {
      var keys := topologyMap.keys;
      for i := 0 to |keys|
        invariant DomainOf(topologyMap, nodeId) == DomainIn(topologyMap.values, keys[i..], nodeId)
      {
        assert keys[i..][1..] == keys[i + 1..];
        if HasNode(topologyMap.values[keys[i]], nodeId) {
          return Some(keys[i]);
        }
      }
      return None;
    }

    /** `get_port_by_id(port_id)`, reduced to the id of the port it finds: `None` when no node has it. */
    method GetPortById(portId: string) returns (r: Result<Option<string>, PyError>)
      ensures topology.None? ==> r == Err(AttributeError)
      ensures topology.Some? ==> r == Ok(if HasPortId(topology.value.nodes, portId) then Some(portId) else None)
    {
      if topology.None? {
        return Err(AttributeError);
      }
      var nodes := topology.value.nodes;
      for i := 0 to |nodes|
        invariant forall i', j' | 0 <= i' < i && 0 <= j' < |nodes[i'].ports| :: nodes[i'].ports[j'].id != portId
      {
        for j := 0 to |nodes[i].ports|
          invariant forall j' | 0 <= j' < j :: nodes[i].ports[j'].id != portId
        {
          if nodes[i].ports[j].id == portId {
            return Ok(Some(portId));
          }
        }
      }
      return Ok(None);
    }

    /** `are_two_ports_same_domain(port1, port2)`; `nodeOf` is the merged topology's `get_node_by_port`. */
    method AreTwoPortsSameDomain(port1: string, port2: string, nodeOf: (Topology, string) -> Option<string>)
      returns (r: Result<bool, PyError>)
      requires Valid()
      ensures topology.None? ==> r == Err(AttributeError)
      ensures topology.Some? ==> r == Ok(SameDomain(topologyMap, topology.value, nodeOf, port1, port2))
    {
      if topology.None? {
        return Err(AttributeError);
      }
      var node1 := nodeOf(topology.value, port1);
      var node2 := nodeOf(topology.value, port2);
      if node1.None? || node2.None? {
        return Ok(false);
      }
      var domain1 := GetDomainName(node1.value);
      var domain2 := GetDomainName(node2.value);
      return Ok(domain1 == domain2);
    }

    /** `get_failed_links()`. */
    method GetFailedLinks() returns (r: Result<seq<FailedLink>, PyError>)
      ensures topology.None? ==> r == Err(AttributeError)
      ensures topology.Some? ==> r == Ok(FailedLinks(topology.value.links))
    {
      if topology.None? {
        return Err(AttributeError);
      }
      var links := topology.value.links;
      var failed := [];
      for i := 0 to |links|
        invariant failed == FailedLinks(links[..i])
      {
        assert links[..i + 1][..i] == links[..i];
        var link := links[i];
        if link.status in {Some("up"), None} && link.state in {Some("enabled"), None} {
          continue;
        }
        failed := failed + [FailedLink(link.id, link.ports)];
      }
      assert links[..|links|] == links;
      return Ok(failed);
    }

    /**
     * `generate_graph()`: the edges of the usable links whose ports all sit
     * on nodes (`nodeOf` is `get_node_by_port`), or `None` without a merged
     * topology.
     */
    method GenerateGraph(nodeOf: (Topology, string) -> Option<string>) returns (r: Result<Option<seq<Edge>>, PyError>)
      ensures topology.None? ==> r == Ok(None)
      ensures topology.Some? ==>
        r == match GraphEdges(topology.value, nodeOf, |topology.value.links|)
             case Ok(edges) => Ok(Some(edges))
             case Err(e) => Err(e)
    {
      if topology.None? {
        return Ok(None);
      }
      var t := topology.value;
      var edges := [];
      for i := 0 to |t.links|
        invariant GraphEdges(t, nodeOf, i) == Ok(edges)
      {
        var link := t.links[i];
        if link.status !in {Some("up"), None} || link.state !in {Some("enabled"), None} {
          assert edges + [] == edges;
          continue;
        }
        var interDomain := false;
        var endNodes: seq<string> := [];
        var j := 0;
        while j < |link.ports|
          invariant 0 <= j <= |link.ports|
          invariant EndNodes(t, nodeOf, link.ports[..j]) == Some(endNodes)
        {
          var node := nodeOf(t, link.ports[j]);
          if node.None? {
            interDomain := true;
            break;
          }
          assert link.ports[..j + 1][..j] == link.ports[..j];
          endNodes := endNodes + [node.value];
          j := j + 1;
        }
        if interDomain {
          assert EndNodes(t, nodeOf, link.ports).None?;
          assert edges + [] == edges;
        } else {
          assert link.ports[..j] == link.ports;
          if |endNodes| < 2 {
            GraphEdgesErrorSticks(t, nodeOf, i + 1, |t.links|);
            return Err(IndexError);
          }
          if link.residualBandwidth == 0 {
            GraphEdgesErrorSticks(t, nodeOf, i + 1, |t.links|);
            return Err(ZeroDivisionError);
          }
          edges := edges + [Edge(endNodes[0], endNodes[1], link.id, link.latency, link.bandwidth,
                                 link.residualBandwidth, link.packetLoss, link.availability)];
        }
      }
      return Ok(Some(edges));
    }
  }
}
