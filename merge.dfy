/**
 * What the loops of `TopologyManager` compute, as functions of the state
 * they start from: the port -> link index of a domain's links, the ports
 * found to face another domain, the links joined between facing ports,
 * the links `update_topology` detaches, the domain of a node, the failed
 * links and the edges of the topology graph.
 */
module Merge {
  import opened Wrappers
  import opened Exceptions
  import opened OrderedMaps
  import opened TopologyModel
  import Interdomain

  // ---------------------------------------------------------------------
  // Port -> link and port id -> port indices
  // ---------------------------------------------------------------------

  /** `{port_id: link for link in links for port_id in link.ports}`: a later link wins. */
  function PortDict(links: seq<Link>): (d: map<string, Link>)
    decreases |links|
  {
    if |links| == 0 then map[]
    else
      var last := links[|links| - 1];
      PortDict(links[..|links| - 1]) + map p | p in last.ports :: last
  }

  /** One more link indexes its ports last. */
  lemma PortDictNext(links: seq<Link>, i: nat)
    requires i < |links|
    ensures PortDict(links[..i + 1]) == PortDict(links[..i]) + map p | p in links[i].ports :: links[i]
  {
    assert links[..i + 1][..i] == links[..i];
  }

  /** Every port of every link is indexed. */
  lemma {:induction false} PortDictCovers(links: seq<Link>, i: nat, p: string)
    requires i < |links| && p in links[i].ports
    ensures p in PortDict(links)
    decreases |links|
  {
    if i < |links| - 1 {
      assert links[..|links| - 1][i] == links[i];
      PortDictCovers(links[..|links| - 1], i, p);
    }
  }

  /** A port is indexed by the last link that lists it. */
  lemma {:induction false} PortDictLastLink(links: seq<Link>, p: string)
    requires p in PortDict(links)
    ensures exists i | 0 <= i < |links| ::
      && PortDict(links)[p] == links[i] && p in links[i].ports
      && forall j | i < j < |links| :: p !in links[j].ports
    decreases |links|
  {
    var n := |links| - 1;
    if p in links[n].ports {
      assert PortDict(links)[p] == links[n];
    } else {
      PortDictLastLink(links[..n], p);
      var i :| 0 <= i < n && PortDict(links[..n])[p] == links[..n][i] && p in links[..n][i].ports &&
        forall j | i < j < n :: p !in links[..n][j].ports;
      assert PortDict(links)[p] == links[i];
      assert forall j | i < j < |links| :: p !in links[j].ports by {
        forall j | i < j < |links| ensures p !in links[j].ports {
          if j < n { assert links[..n][j] == links[j]; }
        }
      }
    }
  }

  /** `port_map[port.id] = port` for each port in order. */
  function PutPorts(m: OMap<string, Port>, ports: seq<Port>): (r: OMap<string, Port>)
    ensures m.Valid() ==> r.Valid()
    decreases |ports|
  {
    if |ports| == 0 then m
    else PutPorts(m, ports[..|ports| - 1]).Put(ports[|ports| - 1].id, ports[|ports| - 1])
  }

  /** The last port with the given id. */
  function LastWithId(ports: seq<Port>, id: string): (r: Option<Port>)
    ensures r.Some? ==> r.value in ports && r.value.id == id
    ensures r.None? ==> forall p | p in ports :: p.id != id
    decreases |ports|
  {
    if |ports| == 0 then None
    else if ports[|ports| - 1].id == id then Some(ports[|ports| - 1])
    else
      var r := LastWithId(ports[..|ports| - 1], id);
      assert forall p | p in ports :: p in ports[..|ports| - 1] || p == ports[|ports| - 1];
      r
  }

  /**
   * After the puts, an id maps to the last port carrying it; an id no port
   * carries keeps what it mapped to before, or stays unmapped.
   */
  lemma {:induction false} PutPortsLookup(m: OMap<string, Port>, ports: seq<Port>, id: string)
    ensures id in PutPorts(m, ports).values <==> id in m.values || LastWithId(ports, id).Some?
    ensures id in PutPorts(m, ports).values ==>
      PutPorts(m, ports).values[id] == if LastWithId(ports, id).Some? then LastWithId(ports, id).value else m.values[id]
    decreases |ports|
  {
    if |ports| > 0 {
      PutPortsLookup(m, ports[..|ports| - 1], id);
    }
  }

  /** Putting one more port puts it last. */
  lemma PutPortsNext(m: OMap<string, Port>, ports: seq<Port>, j: nat)
    requires j < |ports|
    ensures PutPorts(m, ports[..j + 1]) == PutPorts(m, ports[..j]).Put(ports[j].id, ports[j])
  {
    assert ports[..j + 1][..j] == ports[..j];
  }

  /** Putting two runs of ports in turn is putting their concatenation. */
  lemma {:induction false} PutPortsAppend(m: OMap<string, Port>, a: seq<Port>, b: seq<Port>)
    ensures PutPorts(m, a + b) == PutPorts(PutPorts(m, a), b)
    decreases |b|
  {
    if |b| == 0 {
      assert a + b == a;
    } else {
      var n := |b| - 1;
      PutPortsAppend(m, a, b[..n]);
      assert (a + b)[..|a + b| - 1] == a + b[..n];
    }
  }

  /** Every id is listed once. */
  predicate Distinct(s: seq<string>) {
    forall i, j | 0 <= i < j < |s| :: s[i] != s[j]
  }

  /** `keys` followed by each of `ports` not listed yet, in order: the keys a dict gains, in its key order. */
  function AppendNew(keys: seq<string>, ports: seq<string>): (r: seq<string>)
    ensures forall p :: p in r <==> p in keys || p in ports
    ensures Distinct(keys) ==> Distinct(r)
    decreases |ports|
  {
    if |ports| == 0 then keys
    else AppendNew(if ports[0] in keys then keys else keys + [ports[0]], ports[1..])
  }

  /**
   * The key order of the port -> link dictionary of `inter_domain_check`:
   * each port id where a link first lists it (a later link replaces the
   * value, not the position). The ids listed are exactly its keys, once each.
   */
  function PortOrder(links: seq<Link>): (r: seq<string>)
    ensures Distinct(r)
    ensures forall p :: p in r <==> p in PortDict(links)
    decreases |links|
  {
    if |links| == 0 then []
    else AppendNew(PortOrder(links[..|links| - 1]), links[|links| - 1].ports)
  }

  /** One more link lists its new ports last. */
  lemma PortOrderNext(links: seq<Link>, i: nat)
    requires i < |links|
    ensures PortOrder(links[..i + 1]) == AppendNew(PortOrder(links[..i]), links[i].ports)
  {
    assert links[..i + 1][..i] == links[..i];
  }

  /**
   * The matching loop of `inter_domain_check` on a manager without a
   * merged topology: each port in key order is mapped to its incoming link,
   * until one is found already mapped, where `remove_link` of the link it
   * was mapped to raises.
   */
  function LearnUntilMapped(keys: seq<string>, dict: map<string, Link>, m: map<string, Link>): map<string, Link>
    requires forall k | k in keys :: k in dict
    decreases |keys|
  {
    if |keys| == 0 || keys[0] in m then m
    else LearnUntilMapped(keys[1..], dict, m[keys[0] := dict[keys[0]]])
  }

  /**
   * The map learns exactly the ports listed before the first one already
   * mapped, each bound to its incoming link; everything it held stays.
   */
  lemma {:induction false} LearnUntilMappedAt(keys: seq<string>, dict: map<string, Link>, m: map<string, Link>, j: nat, k: string)
    requires Distinct(keys) && forall k | k in keys :: k in dict
    requires j <= |keys| && (forall i | 0 <= i < j :: keys[i] !in m) && (j == |keys| || keys[j] in m)
    ensures k in LearnUntilMapped(keys, dict, m) <==> k in m || k in keys[..j]
    ensures k in LearnUntilMapped(keys, dict, m) ==> LearnUntilMapped(keys, dict, m)[k] == if k in m then m[k] else dict[k]
    decreases j
  {
    if j > 0 {
      var m1 := m[keys[0] := dict[keys[0]]];
      forall i | 0 <= i < j - 1 ensures keys[1..][i] !in m1 {
        assert keys[1..][i] == keys[i + 1] && keys[i + 1] != keys[0];
      }
      if j < |keys| {
        assert keys[1..][j - 1] == keys[j];
      }
      LearnUntilMappedAt(keys[1..], dict, m1, j - 1, k);
      assert keys[..j] == [keys[0]] + keys[1..][..j - 1];
    }
  }

  /** Without a collision, the map learns every port of the incoming links. */
  lemma LearnsWholeDict(links: seq<Link>, m: map<string, Link>)
    requires forall p | p in PortDict(links) :: p !in m
    ensures LearnUntilMapped(PortOrder(links), PortDict(links), m) == m + PortDict(links)
  {
    var keys := PortOrder(links);
    var r := LearnUntilMapped(keys, PortDict(links), m);
    assert keys[..|keys|] == keys;
    forall k ensures (k in r <==> k in m + PortDict(links)) && (k in r ==> r[k] == (m + PortDict(links))[k]) {
      LearnUntilMappedAt(keys, PortDict(links), m, |keys|, k);
    }
  }

  // ---------------------------------------------------------------------
  // inter_domain_check
  // ---------------------------------------------------------------------

  /** Port ids of the incoming links that are already mapped to an existing link. */
  function Collided(dict: map<string, Link>, existing: map<string, Link>): set<string> {
    dict.Keys * existing.Keys
  }

  /** The ids of the existing links those colliding ports were mapped to. */
  function StaleLinkIds(dict: map<string, Link>, existing: map<string, Link>): set<string> {
    set p | p in Collided(dict, existing) :: existing[p].id
  }

  /** Taking one more incoming port into account adds the id of the link it was mapped to, if any. */
  lemma StaleLinkIdsStep(dict: map<string, Link>, remaining: set<string>, existing: map<string, Link>, p: string)
    requires p in remaining && p in dict
    ensures StaleLinkIds(dict - (remaining - {p}), existing)
         == StaleLinkIds(dict - remaining, existing) + (if p in existing then {existing[p].id} else {})
  {
  }

  /** What one port contributes to the list `inter_domain_check` returns: itself once per test it passes. */
  function PortHits(p: Port, collided: set<string>, topologyId: string): seq<Port> {
    (if p.id in collided then [p] else []) + (if Interdomain.IsInterdomainPort(p.nni, topologyId) then [p] else [])
  }

  /** The list `inter_domain_check` returns for the incoming topology's ports, in order. */
  function InterdomainPorts(ports: seq<Port>, collided: set<string>, topologyId: string): seq<Port>
    decreases |ports|
  {
    if |ports| == 0 then []
    else InterdomainPorts(ports[..|ports| - 1], collided, topologyId) + PortHits(ports[|ports| - 1], collided, topologyId)
  }

  /** One more port contributes its own hits last. */
  lemma InterdomainPortsNext(ports: seq<Port>, j: nat, collided: set<string>, topologyId: string)
    requires j < |ports|
    ensures InterdomainPorts(ports[..j + 1], collided, topologyId)
         == InterdomainPorts(ports[..j], collided, topologyId) + PortHits(ports[j], collided, topologyId)
  {
    assert ports[..j + 1][..j] == ports[..j];
  }

  /** The hits of two runs of ports are the hits of the first, then of the second. */
  lemma {:induction false} InterdomainPortsAppend(a: seq<Port>, b: seq<Port>, collided: set<string>, topologyId: string)
    ensures InterdomainPorts(a + b, collided, topologyId)
         == InterdomainPorts(a, collided, topologyId) + InterdomainPorts(b, collided, topologyId)
    decreases |b|
  {
    if |b| == 0 {
      assert a + b == a;
    } else {
      var n := |b| - 1;
      InterdomainPortsAppend(a, b[..n], collided, topologyId);
      assert (a + b)[..|a + b| - 1] == a + b[..n];
    }
  }

  /**
   * The returned ports are exactly the incoming ports whose id collided with
   * an existing mapping, or whose `nni` names a port of another domain.
   */
  lemma {:induction false} InterdomainPortsExact(ports: seq<Port>, collided: set<string>, topologyId: string, p: Port)
    ensures p in InterdomainPorts(ports, collided, topologyId) <==>
      p in ports && (p.id in collided || Interdomain.IsInterdomainPort(p.nni, topologyId))
    decreases |ports|
  {
    if |ports| > 0 {
      var n := |ports| - 1;
      InterdomainPortsExact(ports[..n], collided, topologyId, p);
      assert ports == ports[..n] + [ports[n]];
    }
  }

  // ---------------------------------------------------------------------
  // add_inter_domain_links
  // ---------------------------------------------------------------------

  /** The port `port.nni` names, when it exists and names `port` back. */
  function Facing(portMap: OMap<string, Port>, port: Port): (r: Option<Port>)
    ensures r.Some? <==> port.nni.Some? && port.nni.value in portMap.values
                         && portMap.values[port.nni.value].nni == Some(port.id)
    ensures r.Some? ==> r.value == portMap.values[port.nni.value]
  {
    if port.nni.None? then None
    else match portMap.Get(port.nni.value)
      case Some(other) => if other.nni == Some(port.id) then Some(other) else None
      case None => None
  }

  /** `add_inter_domain_links`: create or update a link for each port with a facing port, in order. */
  function LinkAll(links: seq<Link>, portMap: OMap<string, Port>, ports: seq<Port>): seq<Link>
    decreases |ports|
  {
    if |ports| == 0 then links
    else
      var prev := LinkAll(links, portMap, ports[..|ports| - 1]);
      var port := ports[|ports| - 1];
      match Facing(portMap, port)
      case Some(other) => Interdomain.CreateOrUpdate(prev, port, other)
      case None => prev
  }

  /** Ports without a facing port are skipped: with none, the links are left as they are. */
  lemma {:induction false} LinkAllSkips(links: seq<Link>, portMap: OMap<string, Port>, ports: seq<Port>)
    requires forall i | 0 <= i < |ports| :: Facing(portMap, ports[i]).None?
    ensures LinkAll(links, portMap, ports) == links
    decreases |ports|
  {
    if |ports| > 0 {
      LinkAllSkips(links, portMap, ports[..|ports| - 1]);
    }
  }

  /** No link is lost: every link keeps its position and its id. */
  lemma {:induction false} LinkAllKeepsIds(links: seq<Link>, portMap: OMap<string, Port>, ports: seq<Port>)
    ensures |links| <= |LinkAll(links, portMap, ports)|
    ensures forall i | 0 <= i < |links| :: LinkAll(links, portMap, ports)[i].id == links[i].id
    decreases |ports|
  {
    if |ports| > 0 {
      var n := |ports| - 1;
      LinkAllKeepsIds(links, portMap, ports[..n]);
      if Facing(portMap, ports[n]).Some? {
        KeepsIds(LinkAll(links, portMap, ports[..n]), ports[n], Facing(portMap, ports[n]).value);
      }
    }
  }

  /** Some link carries this id. */
  predicate HasLinkId(links: seq<Link>, id: string) {
    exists k | 0 <= k < |links| :: links[k].id == id
  }

  /** Every port with a facing port ends up joined to it by the link with the canonical id. */
  lemma {:induction false} LinkAllJoins(links: seq<Link>, portMap: OMap<string, Port>, ports: seq<Port>, i: nat)
    requires i < |ports| && Facing(portMap, ports[i]).Some?
    ensures var (low, high) := Interdomain.Ordered(ports[i], Facing(portMap, ports[i]).value);
      HasLinkId(LinkAll(links, portMap, ports), Interdomain.LinkId(low, high))
    decreases |ports|
  {
    var n := |ports| - 1;
    var prev := LinkAll(links, portMap, ports[..n]);
    if i == n {
      KeepsIds(prev, ports[n], Facing(portMap, ports[n]).value);
    } else {
      var (low, high) := Interdomain.Ordered(ports[i], Facing(portMap, ports[i]).value);
      assert ports[..n][i] == ports[i];
      LinkAllJoins(links, portMap, ports[..n], i);
      var k :| 0 <= k < |prev| && prev[k].id == Interdomain.LinkId(low, high);
      if Facing(portMap, ports[n]).Some? {
        KeepsIds(prev, ports[n], Facing(portMap, ports[n]).value);
      }
      assert LinkAll(links, portMap, ports)[k].id == prev[k].id;
    }
  }

  /** Creating or updating a link keeps every link's id in place and leaves the canonical link present. */
  lemma KeepsIds(links: seq<Link>, p1: Port, p2: Port)
    ensures var r := Interdomain.CreateOrUpdate(links, p1, p2);
      && |links| <= |r|
      && (forall i | 0 <= i < |links| :: r[i].id == links[i].id)
      && var (low, high) := Interdomain.Ordered(p1, p2);
         HasLinkId(r, Interdomain.LinkId(low, high))
  {
    var r := Interdomain.CreateOrUpdate(links, p1, p2);
    var (low, high) := Interdomain.Ordered(p1, p2);
    match Interdomain.FindLink(links, Interdomain.LinkId(low, high))
    case Some(k) =>
      assert r[k].id == Interdomain.LinkId(low, high);
    case None =>
      assert r[|links|].id == Interdomain.LinkId(low, high);
  }

  // ---------------------------------------------------------------------
  // update_topology: detaching the links of the incoming domain
  // ---------------------------------------------------------------------

  /** The ids of some nodes. */
  function NodeIds(nodes: seq<Node>): set<string> {
    set n | n in nodes :: n.id
  }

  /** `is_link_interdomain`: some port of the link is not in the port -> link map. */
  predicate IsLinkInterdomain(l: Link, portLinks: map<string, Link>) {
    exists i | 0 <= i < |l.ports| :: l.ports[i] !in portLinks
  }

  /** The merged links and the port -> link map while `update_topology` detaches links, and what it raised. */
  datatype Detach = Detach(links: seq<Link>, portLinks: map<string, Link>, error: Option<PyError>)

  /** `port_link_map.pop(port_id)` for each port in order; the first missing one raises `KeyError`. */
  function PopPorts(m: map<string, Link>, ports: seq<string>): (r: (map<string, Link>, Option<PyError>))
    ensures r.1.None? || r.1 == Some(KeyError)
    ensures r.0.Keys <= m.Keys && forall k | k in r.0 :: r.0[k] == m[k]
    ensures r.1.None? ==> forall i | 0 <= i < |ports| :: ports[i] !in r.0
    decreases |ports|
  {
    if |ports| == 0 then (m, None)
    else if ports[0] !in m then (m, Some(KeyError))
    else
      var r := PopPorts(m - {ports[0]}, ports[1..]);
      assert forall i | 1 <= i < |ports| :: ports[i] == ports[1..][i - 1];
      r
  }

  /** The link-removal loop of `update_topology` over the incoming links, stopping at the first exception. */
  function DetachLinks(d: Detach, links: seq<Link>): Detach
    decreases |links|
  {
    if d.error.Some? || |links| == 0 then d
    else if IsLinkInterdomain(links[0], d.portLinks) then DetachLinks(d, links[1..])
    else
      var (m, e) := PopPorts(d.portLinks, links[0].ports);
      DetachLinks(Detach(WithoutLinks(d.links, {links[0].id}), m, e), links[1..])
  }

  /**
   * Without an exception, every incoming link has a port missing from the
   * map afterwards (it was inter-domain already, or its ports were
   * unmapped), the map only shrank, and only links were removed.
   */
  lemma {:induction false} DetachLeavesNoMappedLink(d: Detach, links: seq<Link>)
    requires d.error.None?
    requires DetachLinks(d, links).error.None?
    ensures var r := DetachLinks(d, links);
      && r.portLinks.Keys <= d.portLinks.Keys
      && (forall l | l in r.links :: l in d.links)
      && forall i | 0 <= i < |links| && |links[i].ports| > 0 :: IsLinkInterdomain(links[i], r.portLinks)
    decreases |links|
  {
    if |links| > 0 {
      var next := if IsLinkInterdomain(links[0], d.portLinks) then d
        else Detach(WithoutLinks(d.links, {links[0].id}), PopPorts(d.portLinks, links[0].ports).0,
                    PopPorts(d.portLinks, links[0].ports).1);
      assert DetachLinks(d, links) == DetachLinks(next, links[1..]);
      DetachLeavesNoMappedLink(next, links[1..]);
      var r := DetachLinks(d, links);
      forall l | l in r.links
        ensures l in d.links
      {
        WithoutLinksMembers(d.links, {links[0].id}, l);
      }
      if |links[0].ports| > 0 {
        if IsLinkInterdomain(links[0], d.portLinks) {
          var i :| 0 <= i < |links[0].ports| && links[0].ports[i] !in d.portLinks;
          assert links[0].ports[i] !in r.portLinks;
        } else {
          assert links[0].ports[0] !in r.portLinks;
        }
      }
      forall i | 1 <= i < |links| && |links[i].ports| > 0
        ensures IsLinkInterdomain(links[i], r.portLinks)
      {
        assert links[i] == links[1..][i - 1];
      }
    }
  }

  /** When no incoming link lists a port twice, the `pop`s never raise. */
  lemma {:induction false} DetachRaisesNothing(d: Detach, links: seq<Link>)
    requires d.error.None?
    requires forall l, i, j | l in links && 0 <= i < j < |l.ports| :: l.ports[i] != l.ports[j]
    ensures DetachLinks(d, links).error.None?
    decreases |links|
  {
    if |links| > 0 {
      if !IsLinkInterdomain(links[0], d.portLinks) {
        PopDistinct(d.portLinks, links[0].ports);
      }
      var next := if IsLinkInterdomain(links[0], d.portLinks) then d
        else Detach(WithoutLinks(d.links, {links[0].id}), PopPorts(d.portLinks, links[0].ports).0,
                    PopPorts(d.portLinks, links[0].ports).1);
      assert forall l | l in links[1..] :: l in links;
      DetachRaisesNothing(next, links[1..]);
    }
  }

  /** Popping distinct ports that are all mapped raises nothing. */
  lemma {:induction false} PopDistinct(m: map<string, Link>, ports: seq<string>)
    requires forall i | 0 <= i < |ports| :: ports[i] in m
    requires forall i, j | 0 <= i < j < |ports| :: ports[i] != ports[j]
    ensures PopPorts(m, ports).1.None?
    decreases |ports|
  {
    if |ports| > 0 {
      forall i | 0 <= i < |ports[1..]| ensures ports[1..][i] in m - {ports[0]} {
        assert ports[1..][i] == ports[i + 1];
      }
      PopDistinct(m - {ports[0]}, ports[1..]);
    }
  }

  /** A mapped link that lists the same port twice makes `update_topology` raise `KeyError`. */
  lemma DetachRepeatedPortRaises(d: Detach, l: Link, p: string)
    requires d.error.None? && l.ports == [p, p] && p in d.portLinks
    ensures DetachLinks(d, [l]).error == Some(KeyError)
  {
    assert !IsLinkInterdomain(l, d.portLinks) by {
      assert forall i | 0 <= i < |l.ports| :: l.ports[i] == p;
    }
    assert l.ports[1..] == [p];
    assert PopPorts(d.portLinks - {p}, [p]).1 == Some(KeyError);
    assert PopPorts(d.portLinks, l.ports).1 == Some(KeyError);
    assert [l][1..] == [];
  }

  // ---------------------------------------------------------------------
  // get_domain_name and are_two_ports_same_domain
  // ---------------------------------------------------------------------

  /** The first topology id of `ids` (in the map's order) whose topology has the node. */
  function DomainIn(topologies: map<string, Topology>, ids: seq<string>, nodeId: string): (r: Option<string>)
    ensures r.Some? ==> r.value in ids && r.value in topologies && HasNode(topologies[r.value], nodeId)
    ensures r.Some? ==> exists i | 0 <= i < |ids| ::
      && ids[i] == r.value
      && forall j | 0 <= j < i :: !(ids[j] in topologies && HasNode(topologies[ids[j]], nodeId))
    ensures r.None? ==> forall k | k in ids && k in topologies :: !HasNode(topologies[k], nodeId)
    decreases |ids|
  {
    if |ids| == 0 then None
    else if ids[0] in topologies && HasNode(topologies[ids[0]], nodeId) then Some(ids[0])
    else
      var r := DomainIn(topologies, ids[1..], nodeId);
      assert forall k | k in ids :: k == ids[0] || k in ids[1..];
      if r.Some? then
        ghost var i :| 0 <= i < |ids| - 1 && ids[1..][i] == r.value &&
          forall j | 0 <= j < i :: !(ids[1..][j] in topologies && HasNode(topologies[ids[1..][j]], nodeId));
        assert ids[i + 1] == r.value;
        r
      else r
  }

  /** `get_domain_name(node_id)`: the id of the first stored domain topology that has the node. */
  function DomainOf(topologyMap: OMap<string, Topology>, nodeId: string): Option<string> {
    DomainIn(topologyMap.values, topologyMap.keys, nodeId)
  }

  /**
   * `are_two_ports_same_domain`: both ports sit on nodes of the merged
   * topology (`nodeOf` is `get_node_by_port`), and those nodes have the same
   * domain, which may be `None` for both.
   */
  predicate SameDomain(topologyMap: OMap<string, Topology>, merged: Topology,
                       nodeOf: (Topology, string) -> Option<string>, port1: string, port2: string) {
    && nodeOf(merged, port1).Some? && nodeOf(merged, port2).Some?
    && DomainOf(topologyMap, nodeOf(merged, port1).value) == DomainOf(topologyMap, nodeOf(merged, port2).value)
  }

  /** Two ports on nodes that no stored domain topology holds count as the same domain. */
  lemma SameDomainWhenBothUnknown(topologyMap: OMap<string, Topology>, merged: Topology,
                                  nodeOf: (Topology, string) -> Option<string>, port1: string, port2: string)
    requires topologyMap.Valid()
    requires nodeOf(merged, port1).Some? && nodeOf(merged, port2).Some?
    requires forall k | k in topologyMap.values ::
      !HasNode(topologyMap.values[k], nodeOf(merged, port1).value) && !HasNode(topologyMap.values[k], nodeOf(merged, port2).value)
    ensures SameDomain(topologyMap, merged, nodeOf, port1, port2)
  {
  }

  /** The answer does not depend on the order of the two ports. */
  lemma SameDomainSymmetric(topologyMap: OMap<string, Topology>, merged: Topology,
                            nodeOf: (Topology, string) -> Option<string>, port1: string, port2: string)
    ensures SameDomain(topologyMap, merged, nodeOf, port1, port2) == SameDomain(topologyMap, merged, nodeOf, port2, port1)
  {
  }

  // ---------------------------------------------------------------------
  // get_failed_links and generate_graph
  // ---------------------------------------------------------------------

  /** Not up-or-unknown and enabled-or-unknown. */
  predicate Failed(l: Link) {
    l.status !in {Some("up"), None} || l.state !in {Some("enabled"), None}
  }

  /** `{"id": link.id, "ports": link.ports}`. */
  datatype FailedLink = FailedLink(id: string, ports: seq<string>)

  /** The failed links in order. */
  function FailedLinks(links: seq<Link>): seq<FailedLink>
    decreases |links|
  {
    if |links| == 0 then []
    else
      var l := links[|links| - 1];
      FailedLinks(links[..|links| - 1]) + (if Failed(l) then [FailedLink(l.id, l.ports)] else [])
  }

  /** A link is reported exactly when it failed. */
  lemma {:induction false} FailedLinksExact(links: seq<Link>, f: FailedLink)
    ensures f in FailedLinks(links) <==> exists l | l in links :: Failed(l) && f == FailedLink(l.id, l.ports)
    decreases |links|
  {
    if |links| > 0 {
      var n := |links| - 1;
      FailedLinksExact(links[..n], f);
      assert links == links[..n] + [links[n]];
    }
  }

  /** One edge of the graph `generate_graph` builds, with the link's attributes. */
  datatype Edge = Edge(u: string, v: string, id: string, latency: int, bandwidth: int,
                       residualBandwidth: int, packetLoss: int, availability: int)

  /** The nodes of a link's ports, up to the first port on no node (`None` then). */
  function EndNodes(merged: Topology, nodeOf: (Topology, string) -> Option<string>, ports: seq<string>): (r: Option<seq<string>>)
    ensures r.Some? <==> forall i | 0 <= i < |ports| :: nodeOf(merged, ports[i]).Some?
    ensures r.Some? ==> |r.value| == |ports| && forall i | 0 <= i < |ports| :: r.value[i] == nodeOf(merged, ports[i]).value
    decreases |ports|
  {
    if |ports| == 0 then Some([])
    else
      var n := |ports| - 1;
      match EndNodes(merged, nodeOf, ports[..n])
      case None => None
      case Some(prefix) =>
        match nodeOf(merged, ports[n])
        case None => None
        case Some(node) => Some(prefix + [node])
  }

  /** What one link adds to the graph: nothing, an edge, or the exception that stops the build. */
  function LinkEdge(merged: Topology, nodeOf: (Topology, string) -> Option<string>, l: Link): Result<seq<Edge>, PyError> {
    if Failed(l) then Ok([])
    else match EndNodes(merged, nodeOf, l.ports)
      case None => Ok([])
      case Some(nodes) =>
        if |nodes| < 2 then Err(IndexError)
        else if l.residualBandwidth == 0 then Err(ZeroDivisionError)
        else Ok([Edge(nodes[0], nodes[1], l.id, l.latency, l.bandwidth, l.residualBandwidth, l.packetLoss, l.availability)])
  }

  /** The edges of `generate_graph` over the first `n` links, in order; the first exception wins. */
  function GraphEdges(merged: Topology, nodeOf: (Topology, string) -> Option<string>, n: nat): Result<seq<Edge>, PyError>
    requires n <= |merged.links|
    decreases n
  {
    if n == 0 then Ok([])
    else match GraphEdges(merged, nodeOf, n - 1)
      case Err(e) => Err(e)
      case Ok(edges) =>
        match LinkEdge(merged, nodeOf, merged.links[n - 1])
        case Err(e) => Err(e)
        case Ok(more) => Ok(edges + more)
  }

  /** Once a link raises, the graph build raises the same for every longer prefix. */
  lemma {:induction false} GraphEdgesErrorSticks(merged: Topology, nodeOf: (Topology, string) -> Option<string>, k: nat, n: nat)
    requires k <= n <= |merged.links|
    requires GraphEdges(merged, nodeOf, k).Err?
    ensures GraphEdges(merged, nodeOf, n) == GraphEdges(merged, nodeOf, k)
    decreases n
  {
    if n > k {
      GraphEdgesErrorSticks(merged, nodeOf, k, n - 1);
    }
  }

  /** Each edge of the graph comes from a link that has not failed and whose ports all sit on nodes. */
  lemma {:induction false} GraphEdgesSound(merged: Topology, nodeOf: (Topology, string) -> Option<string>, n: nat, e: Edge)
    requires n <= |merged.links|
    requires GraphEdges(merged, nodeOf, n).Ok? && e in GraphEdges(merged, nodeOf, n).value
    ensures exists i | 0 <= i < n ::
      && merged.links[i].id == e.id && !Failed(merged.links[i])
      && EndNodes(merged, nodeOf, merged.links[i].ports).Some?
    decreases n
  {
    var prev := GraphEdges(merged, nodeOf, n - 1);
    var more := LinkEdge(merged, nodeOf, merged.links[n - 1]);
    assert GraphEdges(merged, nodeOf, n).value == prev.value + more.value;
    if e in prev.value {
      GraphEdgesSound(merged, nodeOf, n - 1, e);
    } else {
      assert e in more.value;
    }
  }

  /**
   * Each link that has not failed and whose ports all sit on nodes gives an
   * edge: with `get_failed_links`, the graph covers every link but those
   * with a port on no node.
   */
  lemma {:induction false} GraphEdgesComplete(merged: Topology, nodeOf: (Topology, string) -> Option<string>, n: nat, i: nat)
    requires i < n <= |merged.links|
    requires GraphEdges(merged, nodeOf, n).Ok?
    requires !Failed(merged.links[i]) && EndNodes(merged, nodeOf, merged.links[i].ports).Some?
    ensures exists e | e in GraphEdges(merged, nodeOf, n).value :: e.id == merged.links[i].id
    decreases n
  {
    var prev := GraphEdges(merged, nodeOf, n - 1);
    var more := LinkEdge(merged, nodeOf, merged.links[n - 1]);
    assert GraphEdges(merged, nodeOf, n).value == prev.value + more.value;
    if i < n - 1 {
      GraphEdgesComplete(merged, nodeOf, n - 1, i);
      var e :| e in prev.value && e.id == merged.links[i].id;
      assert e in GraphEdges(merged, nodeOf, n).value;
    } else {
      assert more.value[0].id == merged.links[i].id;
      assert more.value[0] in GraphEdges(merged, nodeOf, n).value;
    }
  }

  // ---------------------------------------------------------------------
  // update_link_property
  // ---------------------------------------------------------------------

  /** The properties `update_link_property` sets, with their new value. */
  datatype LinkProperty =
    | Status(status: Option<string>)
    | State(state: Option<string>)
    | Bandwidth(bandwidth: int)
    | ResidualBandwidth(residual: int)
    | Latency(latency: int)
    | PacketLoss(packetLoss: int)
    | Availability(availability: int)

  /** `setattr(link, property, value)`. */
  function SetProperty(l: Link, p: LinkProperty): (r: Link)
    ensures r.id == l.id && r.ports == l.ports && r.name == l.name
  {
    match p
    case Status(s) => l.(status := s)
    case State(s) => l.(state := s)
    case Bandwidth(b) => l.(bandwidth := b)
    case ResidualBandwidth(b) => l.(residualBandwidth := b)
    case Latency(x) => l.(latency := x)
    case PacketLoss(x) => l.(packetLoss := x)
    case Availability(x) => l.(availability := x)
  }

  /** Every link with the given id gets the property, in a list of links. */
  function UpdateLinks(links: seq<Link>, id: string, p: LinkProperty): (r: seq<Link>)
    ensures |r| == |links|
    decreases |links|
  {
    if |links| == 0 then []
    else
      var l := links[|links| - 1];
      UpdateLinks(links[..|links| - 1], id, p) + [if l.id == id then SetProperty(l, p) else l]
  }

  /** Exactly the links with that id change, each in place, and only in that property. */
  lemma {:induction false} UpdateLinksAt(links: seq<Link>, id: string, p: LinkProperty)
    ensures forall i | 0 <= i < |links| ::
      UpdateLinks(links, id, p)[i] == if links[i].id == id then SetProperty(links[i], p) else links[i]
    decreases |links|
  {
    if |links| > 0 {
      UpdateLinksAt(links[..|links| - 1], id, p);
    }
  }

  /** Setting the same property twice is the same as setting it once. */
  lemma UpdateLinksIdempotent(links: seq<Link>, id: string, p: LinkProperty)
    ensures UpdateLinks(UpdateLinks(links, id, p), id, p) == UpdateLinks(links, id, p)
  {
    var r := UpdateLinks(links, id, p);
    var rr := UpdateLinks(r, id, p);
    UpdateLinksAt(links, id, p);
    UpdateLinksAt(r, id, p);
    forall i | 0 <= i < |links| ensures rr[i] == r[i] {
      if links[i].id == id {
        assert SetProperty(SetProperty(links[i], p), p) == SetProperty(links[i], p);
      }
    }
  }

  /** The stored domain topologies, each with its links updated and nothing else changed. */
  function UpdateStored(topologies: OMap<string, Topology>, id: string, p: LinkProperty): (r: OMap<string, Topology>)
    ensures r.keys == topologies.keys && r.values.Keys == topologies.values.Keys
    ensures topologies.Valid() ==> r.Valid()
    ensures forall k | k in topologies.values ::
      r.values[k] == topologies.values[k].(links := UpdateLinks(topologies.values[k].links, id, p))
  {
    OMap(topologies.keys, map k | k in topologies.values :: Updated(topologies.values[k], id, p))
  }

  /** One stored topology with the property set on its links with that id. */
  function Updated(t: Topology, id: string, p: LinkProperty): Topology {
    t.(links := UpdateLinks(t.links, id, p))
  }
}
