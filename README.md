# SDX PCE topology and TE managers, modelled in Dafny

This project models the two classes at the core of the SDX path computation
engine's topology handling:

- `TopologyManager` (`patches/sdx_pce/topology/manager.py`) merges the
  topologies advertised by each domain (OXP) into one "super" topology.
  It keeps four indices: topology id -> topology, port id -> port,
  port id -> link, and a count of inter-domain links. It detects
  inter-domain ports, creates or updates the inter-domain links that join
  facing ports, and versions the merged topology. It also answers queries:
  failed links, the graph handed to the solver, the domain of a node, and
  whether two ports share a domain.
- `TEManager` (`patches/sdx_pce/topology/temanager.py`) owns a
  `TopologyManager`, the solver's graph and the VLAN tags table
  (domain -> port -> tag -> holder). It builds the traffic matrix for a
  connection request. It turns the solver's path into per-domain segments,
  and it reserves and releases VLAN tags for those segments.

Both classes are Dafny classes whose fields are the Python attributes.
Each method states its whole new state. The loops of the source are
`for`/`while` loops with invariants. Every loop is proved against a
function that says what it computes (`PortDict`, `PutPorts`,
`InterdomainPorts`, `LinkAll`, `GraphEdges`, `RefreshPorts`, `Reserve`,
`Release`, `GroupPaths`, `ChainUpTo`, `ReservePrefix`, ...). The lemmas
about those functions state what the source promises.

Modules, in dependency order:

| module | file | contents |
|---|---|---|
| `Wrappers`, `Exceptions` | `wrappers.dfy` | `Option`, `Result`, and the Python exceptions the code can raise |
| `OrderedMaps` | `ordered_maps.dfy` | an insertion-ordered dictionary, as Python's `dict` is |
| `Strings`, `Numerals` | `strings.dfy`, `numerals.dfy` | `split`, `replace(.., 1)`, `upper`, string order, `str`/`int` of integers |
| `Versions` | `versions.dfy` | `update_version` / `new_version` on `major.minor` strings |
| `Labels` | `labels.dfy` | `_expand_label` / `_expand_label_range` |
| `TopologyModel` | `topology_model.dfy` | ports, nodes, links, topologies; removing nodes and links |
| `Interdomain` | `interdomain.dfy` | inter-domain port detection and `create_update_interdomain_link` |
| `Merge` | `merge.dfy` | the functions that specify `TopologyManager`'s loops |
| `Manager` | `manager.dfy` | the class `TopologyManager` and its loop methods |
| `VlanTables` | `vlan_tables.dfy` | the VLAN tags table: refresh, reserve, release |
| `Breakdown` | `breakdown.dfy` | the functions that specify `generate_connection_breakdown` and `generate_traffic_matrix` |
| `TE` | `te_manager.dfy` | the class `TEManager` and its loop methods |

Inputs of the data-model and networkx libraries appear as parameters:

- `nodeOf` is `Topology.get_node_by_port`, reduced to the node's id.
- `portsByLink` is `Topology.get_port_by_link`, reduced to the node id and port id at each end.

Exceptions are values of `Exceptions.PyError` carried in a `Result` or an
`Option`. An `assert False` stub that the code reaches is `AssertionError`.

Where the code and its written description disagree, the model follows the
code:

- `add_topology` and `remove_topology` bump the MAJOR version and reset the
  minor one (`update_version(False)`).
- `update_topology` and `update_link_property` bump the MINOR version
  (`update_version(True)`).
- `_reserve_vlan` without an explicit tag takes the LAST free tag in the
  port's table. Its loop has no `break`, although its comment says "first".
- `_reserve_vlan` with no free tag still writes the request as the holder of
  the key `None` and returns `None`. Tag keys are therefore `Option<int>`.

## Model

| member | source | states |
|---|---|---|
| OrderedMaps.OMap.Put | patches/sdx_pce/topology/manager.py:156-159 | `d[k] = v`: the value is replaced; a new key is appended to the key order, an existing key keeps its place; no key is listed twice |
| OrderedMaps.OMap.SetDefault | patches/sdx_pce/topology/temanager.py:145-149 | `setdefault`: a present key is left alone, a missing one is added at the end with the default |
| OrderedMaps.OMap.Remove | patches/sdx_pce/topology/manager.py:190-191 | `pop(k, None)`: the key is gone, every other key and value stays |
| OrderedMaps.Empty | patches/sdx_pce/topology/manager.py:33-37 | an empty dictionary has no keys and is well formed |
| Strings.Split | patches/sdx_pce/topology/manager.py:266 | `str.split(sep)` always returns at least one field |
| Strings.SplitWithoutSep | patches/sdx_pce/topology/temanager.py:750 | a string without the separator splits into itself alone |
| Strings.SplitAfterField | patches/sdx_pce/topology/temanager.py:750 | a first field without the separator is the first element of the split |
| Strings.LessTrichotomy | patches/sdx_pce/topology/manager.py:329-330 | string `<` is irreflexive, and for distinct strings exactly one order holds, so ordering two port ids is deterministic |
| Strings.IndexOf | patches/sdx_pce/topology/manager.py:332-333 | a found position is the first one where the pattern occurs; no position is found exactly when it occurs nowhere |
| Strings.RemoveFirst | patches/sdx_pce/topology/manager.py:332-333 | `replace(pat, "", 1)`: unchanged without an occurrence; with one, the text before the first occurrence followed by the text after it |
| Strings.RemoveFirstPrefix | patches/sdx_pce/topology/manager.py:332-333 | on a port id that starts with `urn:sdx:port:`, the replacement strips exactly that prefix |
| Strings.Upper | patches/sdx_pce/topology/temanager.py:750 | `upper()` maps each ASCII lower-case letter to its capital and keeps every other character |
| Numerals.NatToStringDigits | patches/sdx_pce/topology/manager.py:277-282 | `str(n)` of a natural number is a non-empty run of digits |
| Numerals.DigitsRoundTrip | patches/sdx_pce/topology/manager.py:277-282 | reading back the digits `str(n)` writes gives `n` |
| Numerals.IntRoundTrip | patches/sdx_pce/topology/manager.py:277-282 | `int(str(i)) == i` for every integer, negative ones included |
| Numerals.NatToStringHasNo | patches/sdx_pce/topology/manager.py:266 | `str(n)` holds no character other than digits, so no '.' |
| Numerals.IntToStringHasNo | patches/sdx_pce/topology/manager.py:266 | `str(i)` holds no '.' or ':', so a version splits at its one dot |
| Versions.SplitVersion | patches/sdx_pce/topology/manager.py:266 | a version written as `major.minor` splits into exactly its two numbers |
| Versions.UpdateVersionBumps | patches/sdx_pce/topology/manager.py:264-282 | on a well-formed version, `update_version(True)` adds one to the minor part; `update_version(False)` adds one to the major part and resets the minor part to 0 |
| Versions.UpdateVersionWithoutMinor | patches/sdx_pce/topology/manager.py:265-282 | a version without a dot is read as major with minor "0" and bumped the same way |
| Versions.UpdateVersionRejects | patches/sdx_pce/topology/manager.py:275-277 | a major part that is not an integer makes the bump raise `ValueError` |
| Versions.InitialVersionIsWellFormed | patches/sdx_pce/topology/manager.py:185-188 | the initial version is major 1, minor 0 |
| Labels.Range | patches/sdx_pce/topology/temanager.py:192 | `range(start, stop)`: `stop - start` numbers counting up from `start`, none when `stop <= start` |
| Labels.ExpandLabelSpec | patches/sdx_pce/topology/temanager.py:159-192 | an integer `n` gives `[n]` and is refused (`ValidationError`) when 0 or -1; a list needs two items (else `IndexError`) and gives the tags from its first to its second inclusive; it is refused (`ValidationError`) when the first item is 0, the second is -1, or the first exceeds the second by more than one, and `[b+1, b]` gives no tags; any other shape is refused; the tags always increase strictly |
| Labels.ExpandTextRange | patches/sdx_pce/topology/temanager.py:169-172 | the text `"a-b"` gives the tags a..b, and is refused when `a` is 0 or `a > b + 1` |
| Labels.ExpandTextSingle | patches/sdx_pce/topology/temanager.py:169-172 | the text `"a"` gives `[a]`, and is refused when `a` is 0 |
| Labels.ExpandLabelMembers | patches/sdx_pce/topology/temanager.py:189-192 | an accepted item stands for exactly the tags in `[start, stop)` |
| Labels.ExpandLabelRangeSpec | patches/sdx_pce/topology/temanager.py:151-157 | the range expands when every item does, and then to exactly the tags of its items; otherwise it raises what the first failing item raises |
| Labels.ExpandLabelRangeAppend | patches/sdx_pce/topology/temanager.py:151-157 | the items expand in order: a range split in two gives the first part's tags followed by the second part's, the first part's exception, else the second's; a one-item range expands as its item |
| TopologyModel.LabelRangeOf | patches/sdx_pce/topology/temanager.py:107-112 | the l2vpn_ptp service's range wins; the port's own range is the fallback; `None` only when both are absent |
| TopologyModel.WithoutLinksMembers | patches/sdx_pce/topology/manager.py:235 | after `remove_link` of a set of ids, exactly the links with other ids remain |
| TopologyModel.WithoutLinksTwice | patches/sdx_pce/topology/manager.py:311 | removing two sets of link ids in turn equals removing their union |
| TopologyModel.WithoutNoLinks | patches/sdx_pce/topology/manager.py:311 | removing no ids leaves the links as they were |
| TopologyModel.WithoutNodesMembers | patches/sdx_pce/topology/manager.py:226-228 | after `remove_node` of a set of ids, exactly the nodes with other ids remain |
| TopologyModel.WithoutNodesTwice | patches/sdx_pce/topology/manager.py:226-228 | removing two sets of node ids in turn equals removing their union |
| TopologyModel.WithoutNoNodes | patches/sdx_pce/topology/manager.py:226-228 | removing no ids leaves the nodes as they were |
| TopologyModel.AllPortsNext | patches/sdx_pce/topology/manager.py:157-159 | the ports of one more node come after the ports of the nodes before it |
| Interdomain.CombinedStatus | patches/sdx_pce/topology/manager.py:48-54 | `up` exactly when both ports are up; `error` exactly when both are up or error and one is error; `down` otherwise |
| Interdomain.CombinedState | patches/sdx_pce/topology/manager.py:55-63 | `enabled` exactly when both ports are enabled; `maintenance` exactly when one is in maintenance and the other is in maintenance, enabled or disabled; `disabled` otherwise |
| Interdomain.CombinedSymmetric | patches/sdx_pce/topology/manager.py:48-63 | both tables give the same answer whichever port comes first |
| Interdomain.BandwidthOf | patches/sdx_pce/topology/manager.py:69-78 | a speed class's bandwidth lies between 0 and that of 400GE, and `Other` maps to 0 |
| Interdomain.SplitUrn | patches/sdx_pce/topology/manager.py:217 | an id with three colon-free fields splits into those fields, then the rest |
| Interdomain.SplitPrefixed | patches/sdx_pce/topology/manager.py:217 | a `urn:sdx:port:` or `urn:sdx:topology:` id splits into `urn`, `sdx`, the kind, then its own fields |
| Interdomain.DomainField | patches/sdx_pce/topology/manager.py:217 | `split(":")[3]` of a prefixed id is the first field after the prefix |
| Interdomain.IsInterdomainPort | patches/sdx_pce/topology/manager.py:205-217 | only a string port id with the port prefix and a topology id with the topology prefix can be inter-domain |
| Interdomain.DomainFieldBeforeColon | patches/sdx_pce/topology/manager.py:217 | the domain field of `prefix + d + ":" + rest` is `d` |
| Interdomain.DomainFieldAtEnd | patches/sdx_pce/topology/manager.py:217 | the domain field of `prefix + d` is `d` |
| Interdomain.InterdomainIffDomainsDiffer | patches/sdx_pce/topology/manager.py:205-217 | a port of domain `d1` is inter-domain for the topology of domain `d2` exactly when `d1 != d2` |
| Interdomain.Ordered | patches/sdx_pce/topology/manager.py:329-330 | the two ports, swapped when the second id sorts before the first, so the second is never less than the first |
| Interdomain.NewLink | patches/sdx_pce/topology/manager.py:340-352 | the new link has the canonical id and the two ports in order, and its bandwidth is the smaller of the ports' bandwidths |
| Interdomain.FindLink | patches/sdx_pce/topology/manager.py:336-339 | the first link with the id, or none when no link has it |
| Interdomain.FindLinkUnique | patches/sdx_pce/topology/manager.py:336-339 | the loop's stopping index is what `FindLink` returns |
| Interdomain.CreateOrUpdate | patches/sdx_pce/topology/manager.py:327-356 | with a link of the canonical id present, only that link changes, and only its status and state; otherwise the new link is appended; status and state come from the two tables |
| Interdomain.CreateOrUpdateSymmetric | patches/sdx_pce/topology/manager.py:327-356 | for distinct port ids the result does not depend on the order of the two ports |
| Interdomain.CreateOrUpdateIdempotent | patches/sdx_pce/topology/manager.py:327-356 | creating or updating the same link twice is the same as doing it once |
| Merge.PortDictNext | patches/sdx_pce/topology/manager.py:149-153 | one more link maps each of its ports to itself, over what the earlier links mapped |
| Merge.PortDictCovers | patches/sdx_pce/topology/manager.py:149-153 | every port of every link gets an entry |
| Merge.PortDictLastLink | patches/sdx_pce/topology/manager.py:149-153 | each entry is the last link that names the port |
| Merge.PutPorts | patches/sdx_pce/topology/manager.py:156-159 | indexing ports keeps the port map well formed |
| Merge.LastWithId | patches/sdx_pce/topology/manager.py:156-159 | the last port with the id, or none when no port has it |
| Merge.PutPortsLookup | patches/sdx_pce/topology/manager.py:156-159 | after indexing, an id maps to the last port with that id, else to its old entry; no other id appears |
| Merge.PutPortsNext | patches/sdx_pce/topology/manager.py:158-159 | indexing one more port is one more `put` |
| Merge.PutPortsAppend | patches/sdx_pce/topology/manager.py:156-159 | indexing two lists in turn equals indexing their concatenation |
| Merge.StaleLinkIdsStep | patches/sdx_pce/topology/manager.py:303-313 | each incoming port adds the id of the link it was mapped to, if it was mapped |
| Merge.InterdomainPortsNext | patches/sdx_pce/topology/manager.py:317-323 | one more port adds itself once if it collided and once more if its `nni` faces another domain |
| Merge.InterdomainPortsAppend | patches/sdx_pce/topology/manager.py:316-323 | the ports of two node lists are collected independently and concatenated |
| Merge.InterdomainPortsExact | patches/sdx_pce/topology/manager.py:316-323 | a port is listed exactly when it is among the incoming ports and collided or faces another domain |
| Merge.Facing | patches/sdx_pce/topology/manager.py:361-362 | the facing port is the one the `nni` names, provided it names this port back |
| Merge.LinkAllSkips | patches/sdx_pce/topology/manager.py:358-368 | without facing ports, no link is added or changed |
| Merge.LinkAllKeepsIds | patches/sdx_pce/topology/manager.py:358-368 | joining ports only appends links or updates them in place; every existing link keeps its id and position |
| Merge.LinkAllJoins | patches/sdx_pce/topology/manager.py:358-368 | every port with a facing port ends up joined to it by the link with the canonical id |
| Merge.KeepsIds | patches/sdx_pce/topology/manager.py:327-356 | one create-or-update keeps every link's id and position, and leaves a link with the canonical id |
| Merge.PopPorts | patches/sdx_pce/topology/manager.py:236-238 | popping only removes entries; the first missing port raises `KeyError`; without an error none of the ports is left |
| Merge.DetachLeavesNoMappedLink | patches/sdx_pce/topology/manager.py:231-238 | after detaching without error, every incoming link with ports is inter-domain for the new map, and no link or entry was invented |
| Merge.DetachRaisesNothing | patches/sdx_pce/topology/manager.py:231-238 | links whose ports are distinct never make the detaching raise |
| Merge.PopDistinct | patches/sdx_pce/topology/manager.py:236-238 | popping distinct mapped ports never raises |
| Merge.AppendNew | patches/sdx_pce/topology/manager.py:298-302 | adding a link's ports to the key list adds exactly the ports not yet there, and keeps each key once |
| Merge.PortOrder | patches/sdx_pce/topology/manager.py:296-302 | the key order of `interdomain_port_dict`: each port of the incoming links once, and no other key |
| Merge.LearnUntilMappedAt | patches/sdx_pce/topology/manager.py:304-313 | walking the keys in order, the port -> link map learns each incoming port before the first one it already maps, keeps its own entries, and learns nothing else |
| Merge.LearnsWholeDict | patches/sdx_pce/topology/manager.py:304-313 | when the map knows none of the incoming ports, it learns the whole dictionary |
| Merge.DetachRepeatedPortRaises | patches/sdx_pce/topology/manager.py:236-238 | a mapped link that lists the same port twice makes the second `pop` raise `KeyError` |
| Merge.DomainIn | patches/sdx_pce/topology/manager.py:176-183 | the first topology, in key order, that has the node; `None` when none has it |
| Merge.SameDomainWhenBothUnknown | patches/sdx_pce/topology/manager.py:484-495 | two ports on nodes that no stored topology knows are reported as in the same domain, since both domains are `None` |
| Merge.SameDomainSymmetric | patches/sdx_pce/topology/manager.py:484-495 | the answer does not depend on the order of the two ports |
| Merge.FailedLinksExact | patches/sdx_pce/topology/manager.py:370-377 | the report lists exactly the links that are not (up or unset) and (enabled or unset) |
| Merge.EndNodes | patches/sdx_pce/topology/manager.py:392-405 | the nodes of all a link's ports, in order, or none as soon as one port is on no node |
| Merge.GraphEdgesErrorSticks | patches/sdx_pce/topology/manager.py:387-418 | once a link raised, later links change nothing |
| Merge.GraphEdgesSound | patches/sdx_pce/topology/manager.py:387-418 | every edge comes from a usable link whose ports are all on nodes |
| Merge.GraphEdgesComplete | patches/sdx_pce/topology/manager.py:387-418 | every usable link whose ports are all on nodes gives an edge |
| Merge.SetProperty | patches/sdx_pce/topology/manager.py:440 | `setattr` of a property keeps the link's id, name and ports |
| Merge.UpdateLinks | patches/sdx_pce/topology/manager.py:446-450 | updating links keeps their number |
| Merge.UpdateLinksAt | patches/sdx_pce/topology/manager.py:446-450 | exactly the links with the id get the property; all others are unchanged |
| Merge.UpdateLinksIdempotent | patches/sdx_pce/topology/manager.py:446-450 | setting the same property twice is the same as setting it once |
| Merge.UpdateStored | patches/sdx_pce/topology/manager.py:435-441 | every stored topology is kept under its own key and in its own place, with its links updated and nothing else changed |
| Manager.BuildPortDict | patches/sdx_pce/topology/manager.py:149-153 | the loop builds the port -> link dictionary `PortDict` |
| Manager.PutLinkPorts | patches/sdx_pce/topology/manager.py:151-153 | the inner loop maps each port of the link to the link |
| Manager.BuildPortOrder | patches/sdx_pce/topology/manager.py:298-302 | the loop lists the dictionary's keys in the order `PortOrder` gives |
| Manager.AppendNewPorts | patches/sdx_pce/topology/manager.py:300-302 | the inner loop computes `AppendNew` |
| Manager.LearnIncomingPorts | patches/sdx_pce/topology/manager.py:304-313 | the loop computes `LearnUntilMapped`, stopping at the first port already mapped, where `remove_link` on the missing merged topology raises |
| Manager.AllInterdomain | patches/sdx_pce/topology/manager.py:232-233 | true exactly when every incoming link is inter-domain for the port -> link map |
| Manager.SetLinkProperty | patches/sdx_pce/topology/manager.py:446-450 | the loop computes `UpdateLinks` |
| Manager.MapIncomingPorts | patches/sdx_pce/topology/manager.py:303-313 | the collided ports are the incoming ports already mapped; the links they were mapped to are removed; the map learns every incoming port |
| Manager.CollectInterdomainPorts | patches/sdx_pce/topology/manager.py:316-323 | the loop lists `InterdomainPorts` of all the nodes' ports |
| Manager.CollectNodePorts | patches/sdx_pce/topology/manager.py:317-323 | the inner loop lists `InterdomainPorts` of one node's ports |
| Manager.RemoveNodes | patches/sdx_pce/topology/manager.py:226-228 | the loop removes every node whose id an incoming node has |
| Manager.HasUnmappedPort | patches/sdx_pce/topology/manager.py:199-203 | true exactly when some port of the link is not in the port -> link map |
| Manager.PopLinkPorts | patches/sdx_pce/topology/manager.py:236-238 | the loop computes `PopPorts`, stopping at the `KeyError` |
| Manager.DetachIncoming | patches/sdx_pce/topology/manager.py:231-238 | the loop computes `DetachLinks`: each non-inter-domain incoming link is removed and its ports unmapped, up to the first `KeyError` |
| Manager.UpdateStoredLinks | patches/sdx_pce/topology/manager.py:435-441 | the loop over stored topologies computes `UpdateStored` |
| Manager.PutNodePorts | patches/sdx_pce/topology/manager.py:158-159 | the inner loop indexes one node's ports |
| Manager.TopologyManager.constructor | patches/sdx_pce/topology/manager.py:28-43 | no merged topology, empty indices, no inter-domain links |
| Manager.TopologyManager.UpdateVersion | patches/sdx_pce/topology/manager.py:264-273 | the merged version's minor part is bumped when `sub`, else its major part; nothing else changes |
| Manager.TopologyManager.UpdatePortMap | patches/sdx_pce/topology/manager.py:156-159 | the port map indexes every port of every node, in order |
| Manager.TopologyManager.InterDomainCheck | patches/sdx_pce/topology/manager.py:290-325 | the port -> link map learns the incoming links; the merged topology loses the links the collided ports were mapped to; the result is `InterdomainPorts` of the incoming ports |
| Manager.TopologyManager.CreateUpdateInterdomainLink | patches/sdx_pce/topology/manager.py:327-356 | the merged links become `CreateOrUpdate` of the two ports; nothing else changes |
| Manager.TopologyManager.AddInterDomainLinks | patches/sdx_pce/topology/manager.py:358-368 | the merged links become `LinkAll` of the ports: facing ports are joined and the others skipped |
| Manager.TopologyManager.AddTopology | patches/sdx_pce/topology/manager.py:112-164 | the state `AddedBy` describes: the domain is stored and its ports and links indexed; the first domain becomes the merged topology under the SDX id with version 1.0; a later one has its stale links removed, its nodes and links appended, its facing ports joined, its inter-domain ports counted, and the major version bumped |
| Manager.TopologyManager.StartTopology | patches/sdx_pce/topology/manager.py:116-121 | the first domain's nodes and links become the merged topology under the SDX id, version 1.0 |
| Manager.TopologyManager.MergeTopology | patches/sdx_pce/topology/manager.py:128-162 | a later domain is checked, appended, indexed and joined; the major version is bumped |
| Manager.TopologyManager.JoinTopology | patches/sdx_pce/topology/manager.py:128-146 | the inter-domain check, the count, the appended nodes and links, and the major bump |
| Manager.TopologyManager.IndexTopology | patches/sdx_pce/topology/manager.py:148-162 | the port -> link and port maps learn the domain; the facing ports found are joined |
| Manager.TopologyManager.IsLinkInterdomain | patches/sdx_pce/topology/manager.py:195-203 | true exactly when some port of the link is not in the port -> link map |
| Manager.TopologyManager.UpdateTopology | patches/sdx_pce/topology/manager.py:219-262 | the state `UpdatedBy` describes: the domain is stored; its nodes and non-inter-domain links leave the merged topology and their ports are unmapped (a `KeyError` stops there); then, as `add_topology` does for a later domain but without counting inter-domain ports, without indexing its links in the port -> link map beyond what `inter_domain_check` learns, and joining facing ports before the port map learns the domain, its nodes and links are appended and the minor version is bumped; without a merged topology it raises `AttributeError`, after the port -> link map learned the incoming ports up to the first mapped one when the domain has no nodes and only inter-domain links |
| Manager.TopologyManager.UpdateWithoutTopology | patches/sdx_pce/topology/manager.py:219-247 | without a merged topology: `AttributeError`; only the port -> link map changes, learning the incoming ports up to the first one already mapped, and only when the domain has no nodes and no link that is not inter-domain |
| Manager.TopologyManager.RemoveTopology | patches/sdx_pce/topology/manager.py:190-193 | the domain is forgotten; the merged topology keeps its nodes and links and its major version is bumped; without one, `AttributeError` |
| Manager.TopologyManager.UpdateLinkProperty | patches/sdx_pce/topology/manager.py:433-454 | every link with the id, stored or merged, gets the property, and the minor version is bumped; without a merged topology, `AttributeError` after the stored ones are updated |
| Manager.TopologyManager.GetDomainName | patches/sdx_pce/topology/manager.py:166-183 | the first stored topology, in insertion order, that has the node |
| Manager.TopologyManager.GetPortById | patches/sdx_pce/topology/manager.py:474-482 | the port is found exactly when some node of the merged topology has it |
| Manager.TopologyManager.AreTwoPortsSameDomain | patches/sdx_pce/topology/manager.py:484-495 | false when a port is on no node, else whether the two nodes' domains agree |
| Manager.TopologyManager.GetFailedLinks | patches/sdx_pce/topology/manager.py:370-377 | the failed links of the merged topology, in order |
| Manager.TopologyManager.GenerateGraph | patches/sdx_pce/topology/manager.py:380-418 | no graph without a merged topology; otherwise the edges `GraphEdges` gives, or the exception it raises |
| VlanTables.AddLabelsKeeps | patches/sdx_pce/topology/temanager.py:146-149 | `setdefault` of labels keeps every existing tag and its holder, and keeps the old keys first, in order |
| VlanTables.AddLabelsAdds | patches/sdx_pce/topology/temanager.py:146-149 | every label becomes a key; every new key is a label and is free |
| VlanTables.RefreshPortsSticks | patches/sdx_pce/topology/temanager.py:126-149 | once a label range raised, the remaining ports are not looked at |
| VlanTables.RefreshKeepsValid | patches/sdx_pce/topology/temanager.py:118-149 | the refresh lists each tag of a port once |
| VlanTables.KeepsEntriesTrans | patches/sdx_pce/topology/temanager.py:118-123 | keeping every port and tag is transitive |
| VlanTables.RefreshKeeps | patches/sdx_pce/topology/temanager.py:118-149 | the refresh is non-disruptive: every port, tag and holder already in the table stays |
| VlanTables.RefreshKeepsOrder | patches/sdx_pce/topology/temanager.py:145-149 | a port's existing tags stay first, in their order |
| VlanTables.RefreshPortKeeps | patches/sdx_pce/topology/temanager.py:129-149 | one port's refresh keeps every existing entry |
| VlanTables.RefreshComplete | patches/sdx_pce/topology/temanager.py:126-149 | when the refresh raised nothing, every label of every port with a range is in that port's table |
| VlanTables.RefreshSkipsUnlabelled | patches/sdx_pce/topology/temanager.py:135-137 | a port without a label range gets no table |
| VlanTables.RefreshSkipsEarlier | patches/sdx_pce/topology/temanager.py:126-149 | a port not yet visited gets no table |
| VlanTables.LastFree | patches/sdx_pce/topology/temanager.py:820-824 | the index the scan stops at is below the bound |
| VlanTables.LastFreeSpec | patches/sdx_pce/topology/temanager.py:820-824 | the scan's tag is free and no later tag is; with none found, no tag is free |
| VlanTables.ReserveSpec | patches/sdx_pce/topology/temanager.py:788-839 | an unknown domain or port reserves nothing; an explicit tag is granted exactly when it is a free key; otherwise the last free tag is granted; the granted tag was free and is now held by the request |
| VlanTables.ReserveKeepsValid | patches/sdx_pce/topology/temanager.py:831-832 | a reservation lists each tag of a port once |
| VlanTables.KeepsHoldersTrans | patches/sdx_pce/topology/temanager.py:788-839 | keeping every holder is transitive |
| VlanTables.ReserveKeepsHolders | patches/sdx_pce/topology/temanager.py:788-839 | a reservation never takes a tag from its holder and drops no domain, port or tag key |
| VlanTables.ReserveTwiceFails | patches/sdx_pce/topology/temanager.py:826-829 | a granted explicit tag cannot be granted again before it is released |
| VlanTables.ReserveWithoutFreeTag | patches/sdx_pce/topology/temanager.py:818-832 | with no free tag the scan returns `None` and records the request as holder of the key `None` |
| VlanTables.ReleasePort | patches/sdx_pce/topology/temanager.py:847-849 | the request's tags become free; every other tag keeps its holder; no key is added or lost |
| VlanTables.ReleaseExact | patches/sdx_pce/topology/temanager.py:841-849 | every domain, port and key stays; a tag is free afterwards when the request held it, and keeps its holder otherwise |
| VlanTables.ReleaseIdempotent | patches/sdx_pce/topology/temanager.py:841-849 | releasing twice is the same as releasing once |
| VlanTables.ReserveThenRelease | patches/sdx_pce/topology/temanager.py:788-849 | a granted reservation for a request that held nothing is undone exactly by releasing the request |
| Breakdown.VertexNode | patches/sdx_pce/topology/temanager.py:399-403 | a vertex has a node exactly when it is in the graph |
| Breakdown.VerticesExact | patches/sdx_pce/topology/temanager.py:286 | the graph's vertices are exactly the end nodes of its edges |
| Breakdown.TouchesSnoc | patches/sdx_pce/topology/temanager.py:286 | a node touches the edges exactly when it touches the earlier ones or the last |
| Breakdown.VerticesDistinct | patches/sdx_pce/topology/temanager.py:286 | each node gets one vertex number |
| Breakdown.GraphOf | patches/sdx_pce/topology/temanager.py:276-292 | no graph without a merged topology; a graph's vertices are those of the manager's edges |
| Breakdown.ResolveHop | patches/sdx_pce/topology/temanager.py:397-410 | no graph raises `AttributeError`; a vertex missing from the graph raises `AssertionError`; otherwise the link's nodes and their domains |
| Breakdown.GatherNext | patches/sdx_pce/topology/temanager.py:418-427 | a link that crosses domains closes the run; the list's last link files it too; otherwise the link is kept pending |
| Breakdown.PutRunsSnoc | patches/sdx_pce/topology/temanager.py:423-425 | filing one more run stores it under its domain |
| Breakdown.GatherCovers | patches/sdx_pce/topology/temanager.py:418-427 | before the last link, the filed runs followed by the pending links are the links so far, in order |
| Breakdown.CoversStep | patches/sdx_pce/topology/temanager.py:418-427 | one more link keeps the runs and pending links covering the links so far |
| Breakdown.RunsCover | patches/sdx_pce/topology/temanager.py:392-427 | the runs of a list, concatenated, are the list: no link is lost, repeated or reordered |
| Breakdown.InDomainSnoc | patches/sdx_pce/topology/temanager.py:420-424 | a link that stays in its domain keeps a run's links in one domain |
| Breakdown.GatherShape | patches/sdx_pce/topology/temanager.py:418-427 | no run is empty; inside a run only the last link may cross domains; before the last link every run ends with a crossing |
| Breakdown.RunsShape | patches/sdx_pce/topology/temanager.py:392-427 | every run but the final one ends where the path crosses into another domain |
| Breakdown.LastRunIn | patches/sdx_pce/topology/temanager.py:423-425 | the last run filed under a domain, or none when no run ends in it |
| Breakdown.PutRunsLookup | patches/sdx_pce/topology/temanager.py:423-425 | a domain's entry is the last run filed under it, else its earlier entry |
| Breakdown.ResolvePath | patches/sdx_pce/topology/temanager.py:394-410 | a resolved list has one hop per link |
| Breakdown.ResolvePathHops | patches/sdx_pce/topology/temanager.py:394-410 | the list resolves exactly when every link does, each hop resolving its own link |
| Breakdown.ResolvePathNext | patches/sdx_pce/topology/temanager.py:394-410 | one more link, resolved after the others |
| Breakdown.ResolvePathSticks | patches/sdx_pce/topology/temanager.py:394-410 | once a lookup raised, the later links are not looked at |
| Breakdown.GroupPaths | patches/sdx_pce/topology/temanager.py:386-427 | the grouping is a well-formed dictionary |
| Breakdown.GroupPathsNonEmpty | patches/sdx_pce/topology/temanager.py:418-427 | every domain of the grouping is filed with at least one link |
| Breakdown.RunsOf | patches/sdx_pce/topology/temanager.py:469 | the runs in the order of the breakdown's domains |
| Breakdown.GroupPathsRunsNonEmpty | patches/sdx_pce/topology/temanager.py:469-549 | the chaining loop never meets an empty run |
| Breakdown.GroupPathsNext | patches/sdx_pce/topology/temanager.py:389-427 | one more domain's list, grouped after the others |
| Breakdown.GroupPathsSticks | patches/sdx_pce/topology/temanager.py:389-410 | once a lookup raised, the later lists are not looked at |
| Breakdown.ChainUpTo | patches/sdx_pce/topology/temanager.py:466-549 | the chaining produces one segment per domain |
| Breakdown.ChainCarries | patches/sdx_pce/topology/temanager.py:510-540 | after a first or middle domain, the next ingress is the second port of that domain's last link |
| Breakdown.ChainSegments | patches/sdx_pce/topology/temanager.py:466-549 | the first segment starts at the request's ingress (a traffic matrix: the first link's first port); each later one starts where the previous domain's last link lands; a middle one ends at its last link's first port; the final one ends at the user egress port or its last link's second port |
| Breakdown.ChainUserPorts | patches/sdx_pce/topology/temanager.py:478-530 | the ingress user port is recorded exactly when the request's ingress is not a linked port; an egress user port is only ever the request's unlinked egress, and with several domains it is recorded exactly then |
| Breakdown.LastUrnField | patches/sdx_pce/topology/temanager.py:750 | the last ':'-field of a topology id is what follows the prefix |
| Breakdown.FirstDotField | patches/sdx_pce/topology/temanager.py:750 | the first '.'-field of `d.rest` is `d` |
| Breakdown.DomainLabelOfTopologyId | patches/sdx_pce/topology/temanager.py:750-751 | the record of domain `urn:sdx:topology:d.rest` is named after `d` |
| Breakdown.ReserveSegment | patches/sdx_pce/topology/temanager.py:660-758 | a missing segment port ends the breakdown with nothing reserved; a record lies in the segment's domain on the segment's two ports |
| Breakdown.ReserveSegmentTags | patches/sdx_pce/topology/temanager.py:686-732 | the request holds each end's tag, unless that end is a user port that borrowed the other end's tag; at least one end's tag is held |
| Breakdown.ReserveHolds | patches/sdx_pce/topology/temanager.py:831-832 | a granted tag is held by the request afterwards |
| Breakdown.HoldsKept | patches/sdx_pce/topology/temanager.py:686-691 | a held tag stays held through later reservations |
| Breakdown.SettleTagsHeld | patches/sdx_pce/topology/temanager.py:701-732 | the borrowing of a user port's tag keeps the record's tags held or borrowed |
| Breakdown.ReservePrefix | patches/sdx_pce/topology/temanager.py:660-760 | a breakdown that goes through has one record per domain so far |
| Breakdown.ReserveSegmentKeepsHolders | patches/sdx_pce/topology/temanager.py:686-691 | a segment's reservations take no tag from another holder and keep the table valid |
| Breakdown.ReservePrefixKeepsHolders | patches/sdx_pce/topology/temanager.py:660-760 | the whole reservation takes no tag from another holder and keeps the table valid |
| Breakdown.ReservePrefixTable | patches/sdx_pce/topology/temanager.py:660-760 | one more domain leaves the table as it was or as its segment's reservation leaves it |
| Breakdown.KeepsHoldersEither | patches/sdx_pce/topology/temanager.py:660-760 | keeping holders survives either outcome of one more domain |
| Breakdown.ReservePrefixSticks | patches/sdx_pce/topology/temanager.py:670-671 | once a domain stopped or raised, the later domains are not looked at |
| Breakdown.ReservePrefixRecords | patches/sdx_pce/topology/temanager.py:660-760 | record k lies in domain k on segment k's ports, and its tags are held by the request or borrowed by a user port |
| Breakdown.ReservePrefixLast | patches/sdx_pce/topology/temanager.py:740-758 | the newest record lies in its domain on its segment's ports, its tags held or borrowed |
| Breakdown.ReservePrefixEarlier | patches/sdx_pce/topology/temanager.py:753-758 | an earlier record is not changed by a later domain |
| Breakdown.ReservePrefixKeepsRecord | patches/sdx_pce/topology/temanager.py:686-691 | a later domain's reservations keep an earlier record's tags held |
| Breakdown.RecordAt | patches/sdx_pce/topology/temanager.py:753-758 | appending a record keeps the earlier ones in place |
| Breakdown.ReserveSegmentRecord | patches/sdx_pce/topology/temanager.py:686-758 | a segment's record lies in its domain on its ports, its tags held or borrowed |
| Breakdown.RecordKept | patches/sdx_pce/topology/temanager.py:686-691 | a record's tags stay held through later reservations |
| Breakdown.ReservePrefixGoing | patches/sdx_pce/topology/temanager.py:660-760 | a breakdown that went through over n domains did so over n - 1, plus one record |
| Breakdown.SameDomainFlag | patches/sdx_pce/topology/temanager.py:444-464 | false for a traffic matrix; a connection request without a merged topology raises `AttributeError` |
| Breakdown.ConnectionBreakdown | patches/sdx_pce/topology/temanager.py:382-384 | no solution or no connection map gives `None` and leaves the table alone |
| Breakdown.ChainAndReserveKeepsHolders | patches/sdx_pce/topology/temanager.py:466-560 | chaining and reserving take no tag from another holder, drop no domain, port or tag key, and keep the table valid |
| Breakdown.OrderedLookupAsserted | patches/sdx_pce/topology/temanager.py:575-597 | when `get_port_by_link(node1, node2)` returns links with `node1` and `node2` as their ends in that order, no assert of the chaining fails |
| Breakdown.ConnectionBreakdownKeepsHolders | patches/sdx_pce/topology/temanager.py:376-573 | whatever the outcome, the breakdown takes no tag from another holder, drops no domain, port or tag key, and keeps the table valid |
| Breakdown.ChainAndReserveRecords | patches/sdx_pce/topology/temanager.py:466-573 | one record per domain of the grouping, in order, on the ports the chaining gave that domain |
| Breakdown.ConnectionBreakdownRecords | patches/sdx_pce/topology/temanager.py:376-573 | a breakdown that went through has one record per domain of the grouping, in order, each on the ports the chaining gave that domain |
| Breakdown.FirstVertex | patches/sdx_pce/topology/temanager.py:238-244 | the first vertex standing for the node, or none when no vertex does |
| Breakdown.TrafficMatrixOf | patches/sdx_pce/topology/temanager.py:194-274 | `None` when a request port is on no node or its node is not in the graph; otherwise one request between the two nodes' vertices, bandwidth 0 when unset, unbounded latency when unset or 0; no merged topology or graph raises `AttributeError` |
| TE.SetDefaultLabels | patches/sdx_pce/topology/temanager.py:146-149 | the loop computes `AddLabels` |
| TE.ReleasePortTags | patches/sdx_pce/topology/temanager.py:847-849 | the innermost loop computes `ReleasePort` |
| TE.ReleaseDomainTags | patches/sdx_pce/topology/temanager.py:846-849 | the middle loop releases every port of the domain |
| TE.RefreshPortTags | patches/sdx_pce/topology/temanager.py:126-149 | the loop over the ports computes `RefreshPorts`, stopping at the first range that raises |
| TE.ResolveLink | patches/sdx_pce/topology/temanager.py:397-410 | the lookups of one link compute `ResolveHop` |
| TE.GroupLinks | patches/sdx_pce/topology/temanager.py:392-427 | one domain's list is resolved and its runs are filed, or the first lookup's exception is returned |
| TE.GroupNext | patches/sdx_pce/topology/temanager.py:394-427 | one more link is resolved and filed, or its exception is the list's |
| TE.FileHop | patches/sdx_pce/topology/temanager.py:418-427 | a crossing link files the run and restarts it empty; the last link files it; otherwise the run grows |
| TE.GroupSolution | patches/sdx_pce/topology/temanager.py:386-427 | the loop over the solution's domains computes `GroupPaths` |
| TE.ChainRuns | patches/sdx_pce/topology/temanager.py:466-549 | the chaining loop computes `ChainUpTo`; it raises `AttributeError` without a merged topology, and `AssertionError` when a lookup fails an assert (`ChainAsserted`) |
| TE.GetPortsByLink | patches/sdx_pce/topology/temanager.py:575-597 | the ports at the two ends of the link, `(None, None)` without one; `AssertionError` exactly when the link found does not name the two nodes in order |
| TE.ChainNext | patches/sdx_pce/topology/temanager.py:475-549 | one domain of the chaining loop: `ChainStep`, or `AssertionError` exactly when one of its lookups fails an assert (`StepAsserted`) |
| TE.ChainIngress | patches/sdx_pce/topology/temanager.py:478-495 | the first domain's ingress: the request's user port, the first link's first port for a traffic matrix, or the request's ingress port; `AssertionError` when the traffic-matrix lookup fails an assert |
| TE.TEManager.constructor | patches/sdx_pce/topology/temanager.py:40-64 | an empty manager, no graph, an empty VLAN tags table |
| TE.TEManager.Load | patches/sdx_pce/topology/temanager.py:56-62 | the manager adds the topology (`AddedBy`), the graph is generated, and the table refreshed from the manager's port map; a graph error leaves the table alone |
| TE.TEManager.AddTopology | patches/sdx_pce/topology/temanager.py:66-81 | the manager adds the topology (`AddedBy`); the domain's table becomes `RefreshDomain` of the new port map, with its error |
| TE.TEManager.UpdateTopology | patches/sdx_pce/topology/temanager.py:83-99 | the manager updates the topology (`UpdatedBy`); when that raised, the error is returned and the table unchanged; otherwise the port map has the domain's ports and the domain's table becomes `RefreshDomain` of it, with its error |
| TE.TEManager.GenerateGraphTe | patches/sdx_pce/topology/temanager.py:276-292 | the vertices of the manager's graph; the stored graph changes only when there is one |
| TE.TEManager.UpdateVlanTagsTable | patches/sdx_pce/topology/temanager.py:118-149 | the domain's table becomes `RefreshDomain`; nothing else changes |
| TE.TEManager.ReserveVlan | patches/sdx_pce/topology/temanager.py:788-839 | the granted tag and new table are those of `Reserve` |
| TE.TEManager.UnreserveVlan | patches/sdx_pce/topology/temanager.py:841-849 | the table becomes `Release` of the request |
| TE.TEManager.ReserveDomainSegment | patches/sdx_pce/topology/temanager.py:660-758 | one domain's reservation computes `ReserveSegment` |
| TE.TEManager.SettleOutcome | patches/sdx_pce/topology/temanager.py:701-758 | a user port borrows the other end's tag; a missing tag raises `AssertionError`; otherwise the record |
| TE.TEManager.ReserveNext | patches/sdx_pce/topology/temanager.py:660-758 | one more domain of the reservation loop |
| TE.TEManager.ReserveVlanBreakdown | patches/sdx_pce/topology/temanager.py:616-760 | the reservation loop computes `ReservePrefix` over all segments |
| TE.TEManager.GenerateConnectionBreakdown | patches/sdx_pce/topology/temanager.py:376-573 | the result and the new table are those of `ConnectionBreakdown` |
| TE.TEManager.GenerateTrafficMatrix | patches/sdx_pce/topology/temanager.py:194-274 | the result is `TrafficMatrixOf` the merged topology, the graph and the request |

## Left out

- Timestamps (`update_timestamp`), logging, the topology lock and `_print_vlan_tags_table` have no effect on the modelled state.
- `generate_grenml` converts to XML in another package; it is not part of this model.
- `graph_node_connectivity` and `requests_connectivity` call networkx's connectivity algorithms, which are not part of this model.
- `get_links_on_path` walks a solver solution with networkx lookups; it is not part of this model.
- `add_breakdowns_to_connection` only stores a value in the request dictionary.
- `get_failed_links` and the getters of `TEManager` delegate to `TopologyManager` and are covered there; `get_port_obj_services_label_range` is `TopologyModel.LabelRangeOf`; `get_handler`, `topology_id`, `set_topology`, `clear_topology` and the map getters are plain field accesses.
- `add_domain_service`, `update_private_properties`, `update_node_property` and `update_port_property` are empty.
- `update_element_property_json` edits a JSON document that never reaches the managers' state.
- `_find_vlan_on_path`, `_reserve_vlan_on_path`, `_unreserve_vlan_breakdown` and `_unreserve_vlan` are `assert False` stubs. Only `_unreserve_vlan` is reached, and it is modelled as raising `AssertionError`.
- Parsing the topology and request documents (`TopologyHandler`, `ConnectionHandler`) is done by the data-model package. The model starts from the parsed values.
- `Topology.get_node_by_port` and `Topology.get_port_by_link` are parameters. `remove_node`, `remove_link`, `add_nodes`, `add_links`, `has_node_by_id` and `Port.to_dict` are modelled as plain sequence operations and port ids.
- `TEManager(topology_data)` is the constructor followed by `Load`.
- Link objects are shared by reference between stored topologies, the merged topology and the port -> link map. The model copies values. A status written by `create_update_interdomain_link` on a shared link is therefore not seen by the stored topology that also holds it.
- networkx merges parallel edges and `add_edge` of an existing pair overwrites its attributes. `Breakdown.Vertices` keeps only the vertex numbering, and `Merge.GraphEdges` lists every edge.
- The edge weight `1000.0 * (1.0 / residual_bandwidth)` is floating point. Only its `ZeroDivisionError` on a zero residual bandwidth is modelled.
- `float("inf")` latency is `Breakdown.Latency.Unbounded`.
- A link's `bandwidth` is an integer in tenths: `100FE` is 0.1 in the source and 1 here. `residualBandwidth` keeps the source's unit (the 100 that `Interdomain.NewLink` writes).
- `Interdomain.BandwidthOf`: the contract gives the bounds and the `Other` case; the per-class values are in the function's table.
- `int()` accepts surrounding whitespace, `+` and `_` separators; `Numerals.ParseInt` accepts only an optional minus sign and digits.
- `upper()` capitalises non-ASCII letters too; `Strings.Upper` handles ASCII only.
- A label range given as a single string rather than a list, and a user VLAN that is not an integer (such as "any" or "100:200"), are not modelled; the user VLAN is an `Option<int>`.
- The values of `SDX_TOPOLOGY_ID_prefix` and `TOPOLOGY_INITIAL_VERSION` live in the data-model package, which is not part of this model. They are taken to be "urn:sdx:topology:" and "1.0".
- `Merge.UpdateLinks`: its own contract gives only the length; `Merge.UpdateLinksAt` states the contents.
- `Breakdown.ConnectionBreakdown`: its own contract covers only the missing-solution case; `Breakdown.ConnectionBreakdownRecords` and `Breakdown.ConnectionBreakdownKeepsHolders` state the rest.
- The helper methods `StartTopology`, `MergeTopology`, `JoinTopology`, `IndexTopology`, `UpdateWithoutTopology`, `ReserveNext`, `SettleOutcome`, `RefreshPortTags`, `ChainNext`, `ChainIngress`, `GroupNext`, `FileHop`, `PutNodePorts`, `PutLinkPorts`, `AppendNewPorts`, `AllInterdomain` and `CollectNodePorts` are not separate functions in the source. Each is a branch or loop body of the method it is cited under.
