/**
 * The pure rules `TopologyManager` uses for links between domains: the
 * status and state combinators, the port-speed bandwidth table, the URN
 * test for an inter-domain port, and the create-or-update of the link
 * joining two facing ports.
 */
module Interdomain {
  import opened Wrappers
  import Strings
  import opened TopologyModel

  const PortPrefix: string := "urn:sdx:port:"
  const TopologyPrefix: string := "urn:sdx:topology:"
  const LinkPrefix: string := "urn:sdx:link:interdomain:"

  // ---------------------------------------------------------------------
  // Status and state of a link from the status and state of its two ports
  // ---------------------------------------------------------------------

  /** `status_map.get((s1, s2), "down")`. */
  function CombinedStatus(s1: Option<string>, s2: Option<string>): (r: string)
    ensures r == "up" <==> s1 == Some("up") && s2 == Some("up")
    ensures r == "error" <==>
      && s1 in {Some("up"), Some("error")} && s2 in {Some("up"), Some("error")}
      && (s1 == Some("error") || s2 == Some("error"))
    ensures r in {"up", "error", "down"}
  {
    match (s1, s2)
    case (Some("up"), Some("up")) => "up"
    case (Some("up"), Some("error")) => "error"
    case (Some("error"), Some("up")) => "error"
    case (Some("error"), Some("error")) => "error"
    case _ => "down"
  }

  /** `state_map.get((s1, s2), "disabled")`. */
  function CombinedState(s1: Option<string>, s2: Option<string>): (r: string)
    ensures r == "enabled" <==> s1 == Some("enabled") && s2 == Some("enabled")
    ensures r == "maintenance" <==>
      || (s1 == Some("maintenance") && s2 in {Some("maintenance"), Some("enabled"), Some("disabled")})
      || (s2 == Some("maintenance") && s1 in {Some("maintenance"), Some("enabled"), Some("disabled")})
    ensures r in {"enabled", "maintenance", "disabled"}
  {
    match (s1, s2)
    case (Some("enabled"), Some("enabled")) => "enabled"
    case (Some("maintenance"), Some("maintenance")) => "maintenance"
    case (Some("maintenance"), Some("enabled")) => "maintenance"
    case (Some("maintenance"), Some("disabled")) => "maintenance"
    case (Some("enabled"), Some("maintenance")) => "maintenance"
    case (Some("disabled"), Some("maintenance")) => "maintenance"
    case _ => "disabled"
  }

  /** Both tables give the same answer whichever port comes first. */
  lemma CombinedSymmetric(s1: Option<string>, s2: Option<string>)
    ensures CombinedStatus(s1, s2) == CombinedStatus(s2, s1)
    ensures CombinedState(s1, s2) == CombinedState(s2, s1)
  {
  }

  /**
   * `bandwidth_map.get(port_type, 100)`, in tenths: "100FE" is 0.1 in the
   * source and 1 here, an unknown speed class counts as 100, 1000 here.
   */
  function BandwidthOf(portType: Option<string>): (r: int)
    ensures 0 <= r <= 4000
    ensures portType == Some("Other") ==> r == 0
  {
    match portType
    case Some("100FE") => 1
    case Some("1GE") => 10
    case Some("10GE") => 100
    case Some("25GE") => 250
    case Some("40GE") => 400
    case Some("100GE") => 1000
    case Some("400GE") => 4000
    case Some("Other") => 0
    case _ => 1000
  }

  // ---------------------------------------------------------------------
  // Inter-domain ports
  // ---------------------------------------------------------------------

  /** Splitting a URN that starts with a three-field prefix yields those three fields first. */
  lemma SplitUrn(a: string, b: string, c: string, rest: string)
    requires ':' !in a && ':' !in b && ':' !in c
    ensures Strings.Split(a + ":" + b + ":" + c + ":" + rest, ':') == [a, b, c] + Strings.Split(rest, ':')
  {
    assert a + ":" + b + ":" + c + ":" + rest == a + [':'] + (b + [':'] + (c + [':'] + rest));
    Strings.SplitAfterField(a, ':', b + [':'] + (c + [':'] + rest));
    Strings.SplitAfterField(b, ':', c + [':'] + rest);
    Strings.SplitAfterField(c, ':', rest);
  }

  /** A string under an SDX prefix splits into `urn`, `sdx`, the kind, then the fields after the prefix. */
  lemma SplitPrefixed(prefix: string, rest: string)
    requires prefix in {PortPrefix, TopologyPrefix}
    ensures Strings.Split(prefix + rest, ':')
         == ["urn", "sdx", if prefix == PortPrefix then "port" else "topology"] + Strings.Split(rest, ':')
  {
    var kind := if prefix == PortPrefix then "port" else "topology";
    assert prefix == "urn" + ":" + "sdx" + ":" + kind + ":";
    SplitUrn("urn", "sdx", kind, rest);
  }

  /** The fourth ':'-separated field of a string with the given prefix: the domain of an SDX URN. */
  function DomainField(s: string, prefix: string): (r: string)
    requires prefix in {PortPrefix, TopologyPrefix} && Strings.StartsWith(s, prefix)
    ensures r == Strings.Split(s[|prefix|..], ':')[0]
  {
    assert s == prefix + s[|prefix|..];
    SplitPrefixed(prefix, s[|prefix|..]);
    Strings.Split(s, ':')[3]
  }

  /**
   * `is_interdomain_port(port_id, topology_id)`: a port id (a port's `nni`,
   * possibly absent) names a port of another domain than the topology.
   */
  function IsInterdomainPort(portId: Option<string>, topologyId: string): (r: bool)
    ensures r ==> portId.Some? && Strings.StartsWith(portId.value, PortPrefix)
                  && Strings.StartsWith(topologyId, TopologyPrefix)
  {
    if portId.None? || !Strings.StartsWith(portId.value, PortPrefix)
       || !Strings.StartsWith(topologyId, TopologyPrefix) then false
    else DomainField(portId.value, PortPrefix) != DomainField(topologyId, TopologyPrefix)
  }

  /** The domain of `<prefix><d>:<rest>` is `d`. */
  lemma DomainFieldBeforeColon(prefix: string, d: string, rest: string)
    requires prefix in {PortPrefix, TopologyPrefix} && ':' !in d
    ensures Strings.StartsWith(prefix + d + ":" + rest, prefix)
    ensures DomainField(prefix + d + ":" + rest, prefix) == d
  {
    var s := prefix + d + ":" + rest;
    assert s[..|prefix|] == prefix;
    assert s[|prefix|..] == d + [':'] + rest;
    Strings.SplitAfterField(d, ':', rest);
  }

  /** The domain of `<prefix><d>` is `d`. */
  lemma DomainFieldAtEnd(prefix: string, d: string)
    requires prefix in {PortPrefix, TopologyPrefix} && ':' !in d
    ensures Strings.StartsWith(prefix + d, prefix)
    ensures DomainField(prefix + d, prefix) == d
  {
    var s := prefix + d;
    assert s[..|prefix|] == prefix;
    assert s[|prefix|..] == d;
    Strings.SplitWithoutSep(d, ':');
  }

  /**
   * A port `urn:sdx:port:<d1>:<rest>` is inter-domain for the topology
   * `urn:sdx:topology:<d2>` exactly when the domains differ.
   */
  lemma InterdomainIffDomainsDiffer(d1: string, rest: string, d2: string)
    requires ':' !in d1 && ':' !in d2
    ensures IsInterdomainPort(Some(PortPrefix + d1 + ":" + rest), TopologyPrefix + d2) <==> d1 != d2
  {
    DomainFieldBeforeColon(PortPrefix, d1, rest);
    DomainFieldAtEnd(TopologyPrefix, d2);
  }

  // ---------------------------------------------------------------------
  // The link joining two facing ports
  // ---------------------------------------------------------------------

  /** The two ports ordered by id, as `create_update_interdomain_link` swaps them. */
  function Ordered(p1: Port, p2: Port): (r: (Port, Port))
    ensures r == (p1, p2) || r == (p2, p1)
    ensures !Strings.Less(r.1.id, r.0.id)
  {
    Strings.LessTrichotomy(p1.id, p2.id);
    if Strings.Less(p2.id, p1.id) then (p2, p1) else (p1, p2)
  }

  /** `urn:sdx:link:interdomain:{low}:{high}`, each port id losing its first `urn:sdx:port:`. */
  function LinkId(low: Port, high: Port): string {
    LinkPrefix + Strings.RemoveFirst(low.id, PortPrefix) + ":" + Strings.RemoveFirst(high.id, PortPrefix)
  }

  /** A link created for two ports (already ordered), before its status and state are set. */
  function NewLink(low: Port, high: Port): (l: Link)
    ensures l.id == LinkId(low, high) && l.ports == [low.id, high.id]
    ensures l.bandwidth <= BandwidthOf(low.portType) && l.bandwidth <= BandwidthOf(high.portType)
    ensures l.bandwidth == BandwidthOf(low.portType) || l.bandwidth == BandwidthOf(high.portType)
  {
    var b1, b2 := BandwidthOf(low.portType), BandwidthOf(high.portType);
    Link(LinkId(low, high), low.name + "--" + high.name, [low.id, high.id], None, None,
         if b1 <= b2 then b1 else b2, 100, 0, 0, 100)
  }

  /** The index of the first link with the given id (the `for ... break` search). */
  function FindLink(links: seq<Link>, id: string): (r: Option<nat>)
    ensures r.Some? ==> r.value < |links| && links[r.value].id == id
    ensures r.Some? ==> forall j | 0 <= j < r.value :: links[j].id != id
    ensures r.None? ==> forall j | 0 <= j < |links| :: links[j].id != id
    decreases |links|
  {
    if |links| == 0 then None
    else if links[|links| - 1].id == id && FindLink(links[..|links| - 1], id).None? then Some(|links| - 1)
    else
      var r := FindLink(links[..|links| - 1], id);
      if r.Some? then r else None
  }

  /**
   * `create_update_interdomain_link(port1, port2)` on the merged topology's
   * links: the first link with the canonical id gets the combined status
   * and state; when there is none, a new link with them is appended.
   */
  function CreateOrUpdate(links: seq<Link>, p1: Port, p2: Port): (r: seq<Link>)
    ensures var (low, high) := Ordered(p1, p2);
      var id := LinkId(low, high);
      match FindLink(links, id)
      case Some(k) =>
        && |r| == |links|
        && (forall j | 0 <= j < |links| && j != k :: r[j] == links[j])
        && r[k] == links[k].(status := Some(CombinedStatus(p1.status, p2.status)),
                             state := Some(CombinedState(p1.state, p2.state)))
      case None =>
        r == links + [NewLink(low, high).(status := Some(CombinedStatus(p1.status, p2.status)),
                                           state := Some(CombinedState(p1.state, p2.state)))]
  {
    var (low, high) := Ordered(p1, p2);
    CombinedSymmetric(p1.status, p2.status);
    CombinedSymmetric(p1.state, p2.state);
    var status, state := Some(CombinedStatus(low.status, high.status)), Some(CombinedState(low.state, high.state));
    match FindLink(links, LinkId(low, high))
    case Some(k) => links[k := links[k].(status := status, state := state)]
    case None => links + [NewLink(low, high).(status := status, state := state)]
  }

  /** Which port comes first does not matter, as long as the two ids differ. */
  lemma CreateOrUpdateSymmetric(links: seq<Link>, p1: Port, p2: Port)
    requires p1.id != p2.id
    ensures CreateOrUpdate(links, p1, p2) == CreateOrUpdate(links, p2, p1)
  {
    Strings.LessTrichotomy(p1.id, p2.id);
    CombinedSymmetric(p1.status, p2.status);
    CombinedSymmetric(p1.state, p2.state);
  }

  /** A second call for the same two ports adds no second link and changes nothing. */
  lemma CreateOrUpdateIdempotent(links: seq<Link>, p1: Port, p2: Port)
    ensures CreateOrUpdate(CreateOrUpdate(links, p1, p2), p1, p2) == CreateOrUpdate(links, p1, p2)
  {
    var (low, high) := Ordered(p1, p2);
    var id := LinkId(low, high);
    var r := CreateOrUpdate(links, p1, p2);
    match FindLink(links, id)
    case Some(k) =>
      assert FindLink(r, id) == Some(k) by {
        FindLinkUnique(r, id, k);
      }
    case None =>
      assert FindLink(r, id) == Some(|links|) by {
        FindLinkUnique(r, id, |links|);
      }
  }

  /** The first index carrying an id is what `FindLink` returns. */
  lemma FindLinkUnique(links: seq<Link>, id: string, k: nat)
    requires k < |links| && links[k].id == id
    requires forall j | 0 <= j < k :: links[j].id != id
    ensures FindLink(links, id) == Some(k)
  {
  }
}
