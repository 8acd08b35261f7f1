/**
 * The VLAN tags table of `TEManager`: domain -> port id -> (tag -> holder),
 * and what refreshing it, reserving a tag in it and releasing a request's
 * tags do to it. The class `TE.TEManager` updates the table in place; the
 * functions here say what each update computes.
 */
module VlanTables {
  import opened Wrappers
  import opened Exceptions
  import opened OrderedMaps
  import Labels
  import TopologyModel

  type RequestId = string

  /**
   * A key of a port's tag table: a VLAN tag, or `None`, which
   * `_reserve_vlan` writes as a key when it finds no free tag.
   */
  type TagKey = Option<int>

  /** Who holds a tag: `None` (`UNUSED_VLAN`, free) or the reserving request. */
  type Holder = Option<RequestId>

  /** One port's tags, in the order they were first added. */
  type PortTable = OMap<TagKey, Holder>

  type DomainTable = map<string, PortTable>

  type TagsTable = map<string, DomainTable>

  /** Every port table lists each key once: one holder per tag. */
  ghost predicate TableValid(T: TagsTable) {
    forall d, p | d in T && p in T[d] :: T[d][p].Valid()
  }

  ghost predicate DomainValid(dt: DomainTable) {
    forall p | p in dt :: dt[p].Valid()
  }

  predicate Free(t: PortTable, k: TagKey) {
    k in t.values && t.values[k] == None
  }

  predicate HeldBy(t: PortTable, k: TagKey, req: RequestId) {
    k in t.values && t.values[k] == Some(req)
  }

  // ---------------------------------------------------------------------
  // Refreshing the table from advertised label ranges
  // ---------------------------------------------------------------------

  /** `setdefault(label, UNUSED_VLAN)` for each label, in order. */
  function AddLabels(t: PortTable, labels: seq<int>): PortTable
    decreases |labels|
  {
    if |labels| == 0 then t
    else AddLabels(t, labels[..|labels| - 1]).SetDefault(Some(labels[|labels| - 1]), None)
  }

  /**
   * Adding labels keeps every key with its holder and its place in the
   * order; a valid table stays valid.
   */
  lemma {:induction false} AddLabelsKeeps(t: PortTable, labels: seq<int>)
    ensures var r := AddLabels(t, labels);
      && (t.Valid() ==> r.Valid())
      && |t.keys| <= |r.keys| && r.keys[..|t.keys|] == t.keys
      && (forall k | k in t.values :: k in r.values && r.values[k] == t.values[k])
    decreases |labels|
  {
    if |labels| > 0 {
      AddLabelsKeeps(t, labels[..|labels| - 1]);
    }
  }

  /** Adding labels adds every label, each new one as a free tag, and nothing else. */
  lemma {:induction false} AddLabelsAdds(t: PortTable, labels: seq<int>)
    ensures var r := AddLabels(t, labels);
      && (forall l | l in labels :: Some(l) in r.values)
      && (forall k | k in r.values && k !in t.values :: k.Some? && k.value in labels && r.values[k] == None)
    decreases |labels|
  {
    if |labels| > 0 {
      var front := labels[..|labels| - 1];
      AddLabelsAdds(t, front);
      assert forall l | l in front :: l in labels;
      assert forall l | l in labels :: l in front || l == labels[|labels| - 1];
    }
  }

  /** Where `_update_vlan_tags_table` stands after some ports: the table, and the exception that stopped it. */
  datatype Refresh = Refresh(table: DomainTable, error: Option<PyError>)

  /** One iteration of `_update_vlan_tags_table`'s loop over the port map. */
  function RefreshPort(dt: DomainTable, portId: string, port: TopologyModel.Port): Refresh {
    match TopologyModel.LabelRangeOf(port)
    case None => Refresh(dt, None)
    case Some(range) =>
      match Labels.ExpandLabelRange(range)
      case Err(e) => Refresh(dt, Some(e))
      case Ok(labels) =>
        Refresh(dt[portId := AddLabels(if portId in dt then dt[portId] else Empty(), labels)], None)
  }

  /** `_update_vlan_tags_table`'s loop over the first `n` entries of the port map. */
  function RefreshPorts(dt: DomainTable, ports: OMap<string, TopologyModel.Port>, n: nat): Refresh
    requires ports.Valid() && n <= |ports.keys|
    decreases n
  {
    if n == 0 then Refresh(dt, None)
    else
      var prev := RefreshPorts(dt, ports, n - 1);
      if prev.error.Some? then prev
      else RefreshPort(prev.table, ports.keys[n - 1], ports.values[ports.keys[n - 1]])
  }

  /** The whole of `_update_vlan_tags_table(domain, ports)`. */
  function RefreshDomain(T: TagsTable, domain: string, ports: OMap<string, TopologyModel.Port>): (r: Refresh)
    requires ports.Valid()
  {
    RefreshPorts(if domain in T then T[domain] else map[], ports, |ports.keys|)
  }

  /** Once a label range raised, the remaining ports are not looked at. */
  lemma {:induction false} RefreshPortsSticks(dt: DomainTable, ports: OMap<string, TopologyModel.Port>, i: nat, n: nat)
    requires ports.Valid() && i <= n <= |ports.keys|
    requires RefreshPorts(dt, ports, i).error.Some?
    ensures RefreshPorts(dt, ports, n) == RefreshPorts(dt, ports, i)
    decreases n - i
  {
    if i < n {
      RefreshPortsSticks(dt, ports, i, n - 1);
    }
  }

  /** The labels one refresh step adds to a port, if it adds any. */
  function StepLabels(port: TopologyModel.Port): Option<seq<int>> {
    match TopologyModel.LabelRangeOf(port)
    case None => None
    case Some(range) =>
      match Labels.ExpandLabelRange(range)
      case Err(_) => None
      case Ok(labels) => Some(labels)
  }

  /** The refresh keeps a valid table valid. */
  lemma {:induction false} RefreshKeepsValid(dt: DomainTable, ports: OMap<string, TopologyModel.Port>, n: nat)
    requires ports.Valid() && n <= |ports.keys|
    requires DomainValid(dt)
    ensures DomainValid(RefreshPorts(dt, ports, n).table)
    decreases n
  {
    if n > 0 {
      RefreshKeepsValid(dt, ports, n - 1);
      var prev := RefreshPorts(dt, ports, n - 1);
      var pid := ports.keys[n - 1];
      var labels := StepLabels(ports.values[pid]);
      if prev.error.None? && labels.Some? {
        AddLabelsKeeps(if pid in prev.table then prev.table[pid] else Empty(), labels.value);
      }
    }
  }

  /** Every port of `a` is in `b`, and every tag of it is there with the same holder. */
  predicate KeepsEntries(a: DomainTable, b: DomainTable) {
    && (forall p | p in a :: p in b)
    && forall p, k | p in a && k in a[p].values :: k in b[p].values && b[p].values[k] == a[p].values[k]
  }

  lemma KeepsEntriesTrans(a: DomainTable, b: DomainTable, c: DomainTable)
    requires KeepsEntries(a, b) && KeepsEntries(b, c)
    ensures KeepsEntries(a, c)
  {
  }

  /**
   * The refresh is non-disruptive: it keeps every port and every tag it
   * finds, with its holder.
   */
  lemma {:induction false} RefreshKeeps(dt: DomainTable, ports: OMap<string, TopologyModel.Port>, n: nat)
    requires ports.Valid() && n <= |ports.keys|
    ensures KeepsEntries(dt, RefreshPorts(dt, ports, n).table)
    decreases n
  {
    if n > 0 {
      RefreshKeeps(dt, ports, n - 1);
      var prev := RefreshPorts(dt, ports, n - 1);
      if prev.error.None? {
        var pid := ports.keys[n - 1];
        RefreshPortKeeps(prev.table, pid, ports.values[pid]);
        KeepsEntriesTrans(dt, prev.table, RefreshPort(prev.table, pid, ports.values[pid]).table);
      }
    }
  }

  /** The refresh keeps each port's tags in their order, new ones coming after. */
  lemma {:induction false} RefreshKeepsOrder(dt: DomainTable, ports: OMap<string, TopologyModel.Port>, n: nat, p: string)
    requires ports.Valid() && n <= |ports.keys| && p in dt
    ensures p in RefreshPorts(dt, ports, n).table
    ensures var t := RefreshPorts(dt, ports, n).table[p];
      |dt[p].keys| <= |t.keys| && t.keys[..|dt[p].keys|] == dt[p].keys
    decreases n
  {
    if n > 0 {
      RefreshKeepsOrder(dt, ports, n - 1, p);
      var prev := RefreshPorts(dt, ports, n - 1);
      var pid := ports.keys[n - 1];
      var labels := StepLabels(ports.values[pid]);
      if prev.error.None? && labels.Some? && pid == p {
        var t0, t1 := dt[p], prev.table[p];
        AddLabelsKeeps(t1, labels.value);
        var t2 := AddLabels(t1, labels.value);
        assert t2.keys[..|t0.keys|] == t1.keys[..|t1.keys|][..|t0.keys|];
      }
    }
  }

  /** One refresh step keeps every port entry and every key already there. */
  lemma RefreshPortKeeps(dt: DomainTable, portId: string, port: TopologyModel.Port)
    ensures KeepsEntries(dt, RefreshPort(dt, portId, port).table)
  {
    var labels := StepLabels(port);
    if labels.Some? && portId in dt {
      AddLabelsKeeps(dt[portId], labels.value);
    }
  }

  /**
   * When the refresh raised nothing, every label of every port that has a
   * label range is a key of that port's table.
   */
  lemma {:induction false} RefreshComplete(dt: DomainTable, ports: OMap<string, TopologyModel.Port>, n: nat, i: nat)
    requires ports.Valid() && i < n <= |ports.keys|
    requires RefreshPorts(dt, ports, n).error.None?
    requires TopologyModel.LabelRangeOf(ports.values[ports.keys[i]]).Some?
    ensures var range := TopologyModel.LabelRangeOf(ports.values[ports.keys[i]]).value;
      && Labels.ExpandLabelRange(range).Ok?
      && ports.keys[i] in RefreshPorts(dt, ports, n).table
      && forall l | l in Labels.ExpandLabelRange(range).value ::
           Some(l) in RefreshPorts(dt, ports, n).table[ports.keys[i]].values
    decreases n
  {
    var prev := RefreshPorts(dt, ports, n - 1);
    assert prev.error.None?;
    if i < n - 1 {
      RefreshComplete(dt, ports, n - 1, i);
      RefreshPortKeeps(prev.table, ports.keys[n - 1], ports.values[ports.keys[n - 1]]);
    } else {
      var pid := ports.keys[i];
      AddLabelsAdds(if pid in prev.table then prev.table[pid] else Empty(), StepLabels(ports.values[pid]).value);
    }
  }

  /** A port without a label range gets no entry of its own. */
  lemma {:induction false} RefreshSkipsUnlabelled(dt: DomainTable, ports: OMap<string, TopologyModel.Port>, n: nat, i: nat)
    requires ports.Valid() && i < n <= |ports.keys|
    requires TopologyModel.LabelRangeOf(ports.values[ports.keys[i]]).None?
    requires ports.keys[i] !in dt
    ensures ports.keys[i] !in RefreshPorts(dt, ports, n).table
    decreases n
  {
    if n - 1 > i {
      RefreshSkipsUnlabelled(dt, ports, n - 1, i);
      assert ports.keys[n - 1] != ports.keys[i];
    } else {
      assert n - 1 == i;
      if i > 0 {
        RefreshSkipsEarlier(dt, ports, i, ports.keys[i]);
      }
    }
  }

  /** Ports not yet reached are not touched. */
  lemma {:induction false} RefreshSkipsEarlier(dt: DomainTable, ports: OMap<string, TopologyModel.Port>, n: nat, pid: string)
    requires ports.Valid() && n <= |ports.keys|
    requires pid !in dt && pid !in ports.keys[..n]
    ensures pid !in RefreshPorts(dt, ports, n).table
    decreases n
  {
    if n > 0 {
      assert ports.keys[..n - 1] == ports.keys[..n][..n - 1];
      RefreshSkipsEarlier(dt, ports, n - 1, pid);
      assert ports.keys[n - 1] in ports.keys[..n];
    }
  }

  // ---------------------------------------------------------------------
  // Reserving a tag
  // ---------------------------------------------------------------------

  /** Index of the last free key: where `_reserve_vlan`'s scan, which has no `break`, stops. */
  function LastFree(t: PortTable, n: nat): (r: Option<nat>)
    requires n <= |t.keys|
    ensures r.Some? ==> r.value < n
    decreases n
  {
    if n == 0 then None
    else if Free(t, t.keys[n - 1]) then Some(n - 1)
    else LastFree(t, n - 1)
  }

  /** The index found is free and no later one below `n` is; with none found, none below `n` is free. */
  lemma {:induction false} LastFreeSpec(t: PortTable, n: nat)
    requires n <= |t.keys|
    ensures var r := LastFree(t, n);
      && (r.Some? ==> Free(t, t.keys[r.value]) && forall j | r.value < j < n :: !Free(t, t.keys[j]))
      && (r.None? ==> forall j | 0 <= j < n :: !Free(t, t.keys[j]))
    decreases n
  {
    if n > 0 && !Free(t, t.keys[n - 1]) {
      LastFreeSpec(t, n - 1);
    }
  }

  /** The tag the scan returns: the last free key, or `None` when there is none. */
  function ScanTag(t: PortTable): TagKey {
    match LastFree(t, |t.keys|)
    case Some(i) => t.keys[i]
    case None => None
  }

  /** What `_reserve_vlan` returns, and the table it leaves behind. */
  datatype Reservation = Reservation(tag: Option<int>, table: TagsTable)

  predicate HasPort(T: TagsTable, domain: Option<string>, portId: Option<string>) {
    domain.Some? && portId.Some? && domain.value in T && portId.value in T[domain.value]
  }

  /** `_reserve_vlan(domain, port, request_id, tag)`; `ReserveSpec` states what it does. */
  function Reserve(T: TagsTable, domain: Option<string>, portId: Option<string>, req: RequestId, tag: Option<int>): Reservation {
    if !HasPort(T, domain, portId) then Reservation(None, T)
    else
      var d, p := domain.value, portId.value;
      var t := T[d][p];
      if tag.Some? && !Free(t, tag) then Reservation(None, T)
      else
        var k := if tag.Some? then tag else ScanTag(t);
        Reservation(k, T[d := T[d][p := t.Put(k, Some(req))]])
  }

  /** What `_reserve_vlan` grants, and what it records. */
  lemma ReserveSpec(T: TagsTable, domain: Option<string>, portId: Option<string>, req: RequestId, tag: Option<int>)
    ensures var r := Reserve(T, domain, portId, req, tag);
      // No entry for the port: nothing reserved, nothing changed.
      && (!HasPort(T, domain, portId) ==> r == Reservation(None, T))
      // An explicit tag is granted exactly when it is a free key of the port.
      && (tag.Some? ==> (r.tag.Some? <==> HasPort(T, domain, portId) && Free(T[domain.value][portId.value], tag)))
      && (tag.Some? && r.tag.Some? ==> r.tag == tag)
      && (tag.Some? && r.tag.None? ==> r.table == T)
      // Otherwise the scan takes the last free key (None when none is free).
      && (tag.None? && HasPort(T, domain, portId) ==> r.tag == ScanTag(T[domain.value][portId.value]))
      // A granted tag was free, and is now held by the request.
      && (r.tag.Some? ==> HasPort(T, domain, portId) && Free(T[domain.value][portId.value], r.tag))
      && (HasPort(T, domain, portId) && (tag.None? || r.tag.Some?) ==>
            var t := T[domain.value][portId.value];
            r.table == T[domain.value := T[domain.value][portId.value := t.Put(r.tag, Some(req))]])
  {
    if HasPort(T, domain, portId) && tag.None? {
      var t := T[domain.value][portId.value];
      LastFreeSpec(t, |t.keys|);
    }
  }

  /** Reservation keeps the table valid. */
  lemma ReserveKeepsValid(T: TagsTable, domain: Option<string>, portId: Option<string>, req: RequestId, tag: Option<int>)
    requires TableValid(T)
    ensures TableValid(Reserve(T, domain, portId, req, tag).table)
  {
  }

  /**
   * `T'` still has every domain, port and tag of `T`, and every VLAN tag
   * somebody holds in `T` has the same holder in `T'`.
   */
  ghost predicate KeepsHolders(T: TagsTable, T': TagsTable) {
    && (forall d | d in T :: d in T' && forall p | p in T[d] :: p in T'[d])
    && (forall d, p, k | d in T && p in T[d] && k in T[d][p].values :: k in T'[d][p].values)
    && forall d, p, n | d in T && p in T[d] && Some(n) in T[d][p].values && T[d][p].values[Some(n)].Some? ::
         Some(n) in T'[d][p].values && T'[d][p].values[Some(n)] == T[d][p].values[Some(n)]
  }

  lemma KeepsHoldersTrans(T1: TagsTable, T2: TagsTable, T3: TagsTable)
    requires KeepsHolders(T1, T2) && KeepsHolders(T2, T3)
    ensures KeepsHolders(T1, T3)
  {
  }

  /** A tag somebody holds is never taken over, and no key disappears. */
  lemma ReserveKeepsHolders(T: TagsTable, domain: Option<string>, portId: Option<string>, req: RequestId, tag: Option<int>)
    ensures KeepsHolders(T, Reserve(T, domain, portId, req, tag).table)
  {
    ReserveSpec(T, domain, portId, req, tag);
  }

  /** A granted explicit tag cannot be granted again before it is released. */
  lemma ReserveTwiceFails(T: TagsTable, domain: Option<string>, portId: Option<string>, req: RequestId, other: RequestId, tag: int)
    requires Reserve(T, domain, portId, req, Some(tag)).tag.Some?
    ensures Reserve(Reserve(T, domain, portId, req, Some(tag)).table, domain, portId, other, Some(tag)).tag.None?
  {
    var T': TagsTable := Reserve(T, domain, portId, req, Some(tag)).table;
    assert T'[domain.value][portId.value].values[Some(tag)] == Some(req);
  }

  /**
   * With no free tag the scan returns `None`, and still records the request
   * as the holder of the key `None`.
   */
  lemma ReserveWithoutFreeTag(T: TagsTable, d: string, p: string, req: RequestId)
    requires d in T && p in T[d]
    requires forall k | k in T[d][p].values :: T[d][p].values[k].Some?
    ensures Reserve(T, Some(d), Some(p), req, None).tag == None
    ensures HeldBy(Reserve(T, Some(d), Some(p), req, None).table[d][p], None, req)
  {
    ReserveSpec(T, Some(d), Some(p), req, None);
  }

  // ---------------------------------------------------------------------
  // Releasing a request's tags
  // ---------------------------------------------------------------------

  /** One port of `unreserve_vlan`: the request's tags become free, nothing else changes. */
  function ReleasePort(t: PortTable, req: RequestId): (r: PortTable)
    ensures r.keys == t.keys && r.values.Keys == t.values.Keys
    ensures forall k | k in t.values :: !HeldBy(r, k, req)
    ensures forall k | k in t.values && t.values[k] != Some(req) :: r.values[k] == t.values[k]
    ensures forall k | HeldBy(t, k, req) :: Free(r, k)
    ensures t.Valid() ==> r.Valid()
  {
    OMap(t.keys, map k | k in t.values :: if t.values[k] == Some(req) then None else t.values[k])
  }

  function ReleaseDomain(dt: DomainTable, req: RequestId): DomainTable {
    map p | p in dt :: ReleasePort(dt[p], req)
  }

  /** `unreserve_vlan(request_id)` over the whole table. */
  function Release(T: TagsTable, req: RequestId): TagsTable {
    map d | d in T :: ReleaseDomain(T[d], req)
  }

  /** Releasing keeps every domain, port and key, and leaves no tag held by the request. */
  lemma ReleaseExact(T: TagsTable, req: RequestId)
    ensures Release(T, req).Keys == T.Keys
    ensures forall d | d in T :: Release(T, req)[d].Keys == T[d].Keys
    ensures forall d, p | d in T && p in T[d] ::
      Release(T, req)[d][p].keys == T[d][p].keys && Release(T, req)[d][p].values.Keys == T[d][p].values.Keys
    ensures forall d, p, k | d in T && p in T[d] && k in T[d][p].values ::
      Release(T, req)[d][p].values[k] == if T[d][p].values[k] == Some(req) then None else T[d][p].values[k]
    ensures TableValid(T) ==> TableValid(Release(T, req))
  {
  }

  /** Calling `unreserve_vlan` twice is the same as calling it once. */
  lemma ReleaseIdempotent(T: TagsTable, req: RequestId)
    ensures Release(Release(T, req), req) == Release(T, req)
  {
    var R := Release(T, req);
    forall d | d in T ensures ReleaseDomain(R[d], req) == R[d] {
      forall p | p in T[d] ensures ReleasePort(R[d][p], req) == R[d][p] {
        var t := R[d][p];
        assert ReleasePort(t, req).values == t.values;
      }
    }
  }

  /** The request holds no tag anywhere in the table. */
  predicate HoldsNothing(T: TagsTable, req: RequestId) {
    forall d, p, k | d in T && p in T[d] && k in T[d][p].values :: T[d][p].values[k] != Some(req)
  }

  /**
   * A reservation that succeeded for a request that held nothing is undone
   * exactly by releasing that request.
   */
  lemma ReserveThenRelease(T: TagsTable, domain: Option<string>, portId: Option<string>, req: RequestId, tag: Option<int>)
    requires HoldsNothing(T, req)
    requires Reserve(T, domain, portId, req, tag).tag.Some?
    ensures Release(Reserve(T, domain, portId, req, tag).table, req) == T
  {
    var r := Reserve(T, domain, portId, req, tag);
    ReserveSpec(T, domain, portId, req, tag);
    var d, p := domain.value, portId.value;
    var R := Release(r.table, req);
    assert R.Keys == T.Keys;
    forall d' | d' in T ensures R[d'] == T[d'] {
      assert R[d'].Keys == T[d'].Keys;
      forall p' | p' in T[d'] ensures R[d'][p'] == T[d'][p'] {
        var before := T[d'][p'];
        var after := R[d'][p'];
        assert after.keys == before.keys;
        assert after.values.Keys == before.values.Keys;
        forall k | k in before.values ensures after.values[k] == before.values[k] {
        }
        assert after.values == before.values;
      }
    }
  }
}
