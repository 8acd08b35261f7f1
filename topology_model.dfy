/**
 * The topology entities the managers work on. They stand for the
 * `sdx_datamodel` objects (Topology, Node, Port, Link), reduced to the
 * attributes the path computation engine reads or writes.
 */
module TopologyModel {
  import opened Wrappers
  import Labels

  datatype Port = Port(
    id: string,
    name: string,
    nni: Option<string>,        // id of the port facing this one in another domain
    status: Option<string>,     // "up", "down", "error", ...
    state: Option<string>,      // "enabled", "disabled", "maintenance", ...
    portType: Option<string>,   // speed class: "1GE", "10GE", "100GE", ...
    vlanRange: Option<seq<Labels.LabelItem>>,        // `port.vlan_range`
    serviceVlanRange: Option<seq<Labels.LabelItem>>) // `port.services.l2vpn_ptp["vlan_range"]`

  /**
   * The label range `_update_vlan_tags_table` uses for a port: the one under
   * the port's l2vpn_ptp service when there is one, else the port's own.
   */
  function LabelRangeOf(p: Port): (r: Option<seq<Labels.LabelItem>>)
    ensures r.None? <==> p.serviceVlanRange.None? && p.vlanRange.None?
    ensures p.serviceVlanRange.Some? ==> r == p.serviceVlanRange
  {
    if p.serviceVlanRange.Some? then p.serviceVlanRange else p.vlanRange
  }

  datatype Node = Node(id: string, ports: seq<Port>)

  /** A link; bandwidth is kept in tenths of the source's unit (`100FE` is 0.1 there). */
  datatype Link = Link(
    id: string,
    name: string,
    ports: seq<string>,
    status: Option<string>,
    state: Option<string>,
    bandwidth: int,
    residualBandwidth: int,
    latency: int,
    packetLoss: int,
    availability: int)

  datatype Topology = Topology(id: string, version: string, nodes: seq<Node>, links: seq<Link>)

  /** The links whose id is not in `ids`, in order (`Topology.remove_link` for each id). */
  function WithoutLinks(links: seq<Link>, ids: set<string>): (r: seq<Link>)
    ensures |r| <= |links|
    decreases |links|
  {
    if |links| == 0 then []
    else if links[0].id in ids then WithoutLinks(links[1..], ids)
    else [links[0]] + WithoutLinks(links[1..], ids)
  }

  /** A link survives exactly when it was there and its id is not removed. */
  lemma {:induction false} WithoutLinksMembers(links: seq<Link>, ids: set<string>, l: Link)
    ensures l in WithoutLinks(links, ids) <==> l in links && l.id !in ids
    decreases |links|
  {
    if |links| > 0 {
      WithoutLinksMembers(links[1..], ids, l);
      assert links == [links[0]] + links[1..];
    }
  }

  /** Removing one set of ids and then another removes their union. */
  lemma {:induction false} WithoutLinksTwice(links: seq<Link>, a: set<string>, b: set<string>)
    ensures WithoutLinks(WithoutLinks(links, a), b) == WithoutLinks(links, a + b)
    decreases |links|
  {
    if |links| > 0 {
      WithoutLinksTwice(links[1..], a, b);
    }
  }

  /** Removing no id keeps every link. */
  lemma {:induction false} WithoutNoLinks(links: seq<Link>)
    ensures WithoutLinks(links, {}) == links
    decreases |links|
  {
    if |links| > 0 {
      WithoutNoLinks(links[1..]);
      assert links == [links[0]] + links[1..];
    }
  }

  /** The nodes whose id is not in `ids`, in order (`Topology.remove_node` for each id). */
  function WithoutNodes(nodes: seq<Node>, ids: set<string>): (r: seq<Node>)
    ensures |r| <= |nodes|
    decreases |nodes|
  {
    if |nodes| == 0 then []
    else if nodes[0].id in ids then WithoutNodes(nodes[1..], ids)
    else [nodes[0]] + WithoutNodes(nodes[1..], ids)
  }

  /** A node survives exactly when it was there and its id is not removed. */
  lemma {:induction false} WithoutNodesMembers(nodes: seq<Node>, ids: set<string>, n: Node)
    ensures n in WithoutNodes(nodes, ids) <==> n in nodes && n.id !in ids
    decreases |nodes|
  {
    if |nodes| > 0 {
      WithoutNodesMembers(nodes[1..], ids, n);
      assert nodes == [nodes[0]] + nodes[1..];
    }
  }

  /** Removing one set of node ids and then another removes their union. */
  lemma {:induction false} WithoutNodesTwice(nodes: seq<Node>, a: set<string>, b: set<string>)
    ensures WithoutNodes(WithoutNodes(nodes, a), b) == WithoutNodes(nodes, a + b)
    decreases |nodes|
  {
    if |nodes| > 0 {
      WithoutNodesTwice(nodes[1..], a, b);
    }
  }

  /** Removing no id keeps every node. */
  lemma {:induction false} WithoutNoNodes(nodes: seq<Node>)
    ensures WithoutNodes(nodes, {}) == nodes
    decreases |nodes|
  {
    if |nodes| > 0 {
      WithoutNoNodes(nodes[1..]);
      assert nodes == [nodes[0]] + nodes[1..];
    }
  }

  /** The ports of the nodes, node by node, each node's ports in order. */
  function AllPorts(nodes: seq<Node>): (r: seq<Port>)
    decreases |nodes|
  {
    if |nodes| == 0 then []
    else AllPorts(nodes[..|nodes| - 1]) + nodes[|nodes| - 1].ports
  }

  /** The ports of one more node come last. */
  lemma AllPortsNext(nodes: seq<Node>, i: nat)
    requires i < |nodes|
    ensures AllPorts(nodes[..i + 1]) == AllPorts(nodes[..i]) + nodes[i].ports
  {
    assert nodes[..i + 1][..i] == nodes[..i];
  }

  /** Some node has a port with this id. */
  predicate HasPortId(nodes: seq<Node>, id: string) {
    exists i, j | 0 <= i < |nodes| && 0 <= j < |nodes[i].ports| :: nodes[i].ports[j].id == id
  }

  /** `Topology.has_node_by_id`. */
  predicate HasNode(t: Topology, nodeId: string) {
    exists n | n in t.nodes :: n.id == nodeId
  }
}
