/** The driver's node table: the setup-time tagging and pruning of storage
    nodes, the choice of the node that serves a volume, and the assembly of
    the connection properties from that node. */
module NodeTable {
  import opened IscsiTypes

  /** `self._state['storage_nodes']`: a dictionary from node key to node,
      in the dictionary's iteration order. */
  type Table = seq<(string, Node)>

  /** Dictionary keys are distinct. */
  predicate UniqueKeys(t: Table) {
    forall i, j :: 0 <= i < j < |t| ==> t[i].0 != t[j].0
  }

  function Keys(t: Table): set<string> {
    set i | 0 <= i < |t| :: t[i].0
  }

  /** `.values()` of the table, in iteration order. */
  function Values(t: Table): (r: seq<Node>)
    ensures |r| == |t| && forall i :: 0 <= i < |t| ==> r[i] == t[i].1
  {
    seq(|t|, i requires 0 <= i < |t| => t[i].1)
  }

  // ---------------------------------------------------------------------
  // Setup-time tagging and pruning
  // ---------------------------------------------------------------------

  /** A node can serve iSCSI when it has an IPv4 or an IPv6 address and a
      non-empty iSCSI name. */
  predicate IscsiCapable(n: Node) {
    (|n.ipv4| > 0 || |n.ipv6| > 0) && |n.iscsiName| > 0
  }

  /** The node after the setup loop has looked at it: 'iSCSI' appended to its
      enabled protocols when it is capable, unchanged otherwise. */
  function Tag(n: Node): (r: Node)
    ensures r.enabledProtocols == n.enabledProtocols + (if IscsiCapable(n) then [ISCSI_PROTOCOL] else [])
    ensures r == n.(enabledProtocols := r.enabledProtocols)
  {
    if IscsiCapable(n) then n.(enabledProtocols := n.enabledProtocols + [ISCSI_PROTOCOL]) else n
  }

  function TagEntry(e: (string, Node)): (string, Node) {
    (e.0, Tag(e.1))
  }

  /** The whole table after the tagging pass. */
  function TagAll(t: Table): (r: Table)
    ensures |r| == |t| && forall i :: 0 <= i < |t| ==> r[i] == TagEntry(t[i])
  {
    seq(|t|, i requires 0 <= i < |t| => TagEntry(t[i]))
  }

  predicate HasProtocols(e: (string, Node)) {
    |e.1.enabledProtocols| > 0
  }

  /** True when some node of the table is iSCSI-capable. */
  predicate AnyCapable(t: Table) {
    exists i :: 0 <= i < |t| && IscsiCapable(t[i].1)
  }

  /** The keys the setup loop collects in `to_delete`, in iteration order. */
  function NoProtocolKeys(t: Table): (r: seq<string>)
    ensures forall k :: k in r ==> k in Keys(t)
  {
    if t == [] then []
    else
      var s := t[..|t| - 1];
      assert Keys(s) <= Keys(t) by {
        forall k | k in Keys(s) ensures k in Keys(t) {
          var i :| 0 <= i < |s| && s[i].0 == k;
          assert t[i].0 == k;
        }
      }
      assert t[|t| - 1].0 in Keys(t);
      NoProtocolKeys(s) + (if HasProtocols(t[|t| - 1]) then [] else [t[|t| - 1].0])
  }

  /** `del d[k]` on a table. */
  function DeleteKey(t: Table, k: string): (r: Table)
    ensures forall e :: e in r <==> e in t && e.0 != k
  {
    if t == [] then []
    else DeleteKey(t[..|t| - 1], k) + (if t[|t| - 1].0 == k then [] else [t[|t| - 1]])
  }

  /** The table with every entry whose key is in `ks` deleted. */
  function WithoutKeys(t: Table, ks: seq<string>): (r: Table)
    ensures forall e :: e in r <==> e in t && e.0 !in ks
  {
    if t == [] then []
    else WithoutKeys(t[..|t| - 1], ks) + (if t[|t| - 1].0 in ks then [] else [t[|t| - 1]])
  }

  /** The entries that have at least one enabled protocol, in order. */
  function KeepEnabled(t: Table): (r: Table)
    ensures forall e :: e in r <==> e in t && HasProtocols(e)
    ensures |r| <= |t|
  {
    if t == [] then []
    else
      var s := t[..|t| - 1];
      assert t == s + [t[|t| - 1]];
      KeepEnabled(s) + (if HasProtocols(t[|t| - 1]) then [t[|t| - 1]] else [])
  }

  /** The node table as do_setup leaves it: tagged, and pruned of the nodes
      that have no enabled protocol. */
  function Pruned(t: Table): (r: Table)
    ensures forall e :: e in r <==> e in TagAll(t) && HasProtocols(e)
    ensures Subsequence(r, TagAll(t))
  {
    KeepEnabledKeepsOrder(TagAll(t));
    KeepEnabled(TagAll(t))
  }

  /** `a` is `b` with some entries removed, the rest kept in order. */
  predicate Subsequence<T(==)>(a: seq<T>, b: seq<T>)
    decreases |b|
  {
    if b == [] then a == []
    else (a != [] && a[|a| - 1] == b[|b| - 1] && Subsequence(a[..|a| - 1], b[..|b| - 1]))
         || Subsequence(a, b[..|b| - 1])
  }

  /** Pruning keeps the surviving entries in the table's order, so "first in
      table order" means the same before and after setup. */
  lemma {:induction false} KeepEnabledKeepsOrder(t: Table)
    ensures Subsequence(KeepEnabled(t), t)
  {
    if t != [] {
      var s := t[..|t| - 1];
      KeepEnabledKeepsOrder(s);
      var r := KeepEnabled(t);
      if HasProtocols(t[|t| - 1]) {
        assert r == KeepEnabled(s) + [t[|t| - 1]];
        assert r[..|r| - 1] == KeepEnabled(s);
      } else {
        assert r == KeepEnabled(s);
        assert Subsequence(r, t[..|t| - 1]);
      }
    }
  }

  lemma {:induction false} DeleteKeyExtends(t: Table, ks: seq<string>, k: string)
    ensures DeleteKey(WithoutKeys(t, ks), k) == WithoutKeys(t, ks + [k])
  {
    if t != [] {
      var s := t[..|t| - 1];
      DeleteKeyExtends(s, ks, k);
      DeleteKeyAppend(WithoutKeys(s, ks), if t[|t| - 1].0 in ks then [] else [t[|t| - 1]], k);
    }
  }

  lemma {:induction false} DeleteKeyAppend(a: Table, b: Table, k: string)
    requires |b| <= 1
    ensures DeleteKey(a + b, k) == DeleteKey(a, k) + (if b == [] || b[0].0 == k then [] else b)
  {
    if b != [] {
      assert (a + b)[..|a + b| - 1] == a;
    } else {
      assert a + b == a;
    }
  }

  /** The keys of a table are those of all but its last entry, plus the last one's. */
  lemma KeysOfPrefix(t: Table)
    requires t != []
    ensures Keys(t) == Keys(t[..|t| - 1]) + {t[|t| - 1].0}
    ensures UniqueKeys(t) ==> UniqueKeys(t[..|t| - 1]) && t[|t| - 1].0 !in Keys(t[..|t| - 1])
  {
    var s := t[..|t| - 1];
    forall k | k in Keys(s) ensures k in Keys(t) {
      var i :| 0 <= i < |s| && s[i].0 == k;
      assert t[i].0 == k;
    }
    assert t[|t| - 1].0 in Keys(t);
    if UniqueKeys(t) {
      assert forall i :: 0 <= i < |s| ==> s[i].0 != t[|t| - 1].0;
    }
  }

  /** Deleting a key that the table does not hold changes nothing. */
  lemma {:induction false} WithoutAbsentKey(t: Table, ks: seq<string>, k: string)
    requires k !in Keys(t)
    ensures WithoutKeys(t, ks + [k]) == WithoutKeys(t, ks)
  {
    if t != [] {
      KeysOfPrefix(t);
      WithoutAbsentKey(t[..|t| - 1], ks, k);
    }
  }

  /** With distinct keys, deleting the collected keys is the same as keeping
      the entries that have an enabled protocol. */
  lemma {:induction false} DeleteCollectedKeys(t: Table)
    requires UniqueKeys(t)
    ensures WithoutKeys(t, NoProtocolKeys(t)) == KeepEnabled(t)
  {
    if t != [] {
      var s := t[..|t| - 1];
      var last := t[|t| - 1];
      KeysOfPrefix(t);
      DeleteCollectedKeys(s);
      var ks := NoProtocolKeys(s);
      if HasProtocols(last) {
        assert last.0 !in ks;
        assert NoProtocolKeys(t) == ks;
        assert WithoutKeys(t, ks) == WithoutKeys(s, ks) + [last];
        assert KeepEnabled(t) == KeepEnabled(s) + [last];
      } else {
        WithoutAbsentKey(s, ks, last.0);
        assert NoProtocolKeys(t) == ks + [last.0];
        assert WithoutKeys(t, ks + [last.0]) == WithoutKeys(s, ks + [last.0]);
        assert KeepEnabled(t) == KeepEnabled(s);
      }
    }
  }

  lemma TagAllKeepsKeys(t: Table)
    ensures Keys(TagAll(t)) == Keys(t)
    ensures UniqueKeys(t) ==> UniqueKeys(TagAll(t))
  {
    var r := TagAll(t);
    forall k | k in Keys(t) ensures k in Keys(r) {
      var i :| 0 <= i < |t| && t[i].0 == k;
      assert r[i].0 == k;
    }
  }

  /** Every node left after setup has an enabled protocol, and a node whose
      enabled protocols are non-empty after tagging is never removed. */
  lemma PrunedMembership(t: Table)
    ensures forall e :: e in Pruned(t) ==> HasProtocols(e)
    ensures forall i :: 0 <= i < |t| && HasProtocols(TagEntry(t[i])) ==> TagEntry(t[i]) in Pruned(t)
    ensures forall e :: e in Pruned(t) ==> exists i :: 0 <= i < |t| && e == TagEntry(t[i])
  {
    var r := TagAll(t);
    forall e | e in Pruned(t) ensures exists i :: 0 <= i < |t| && e == TagEntry(t[i]) {
      var i :| 0 <= i < |r| && r[i] == e;
    }
    forall i | 0 <= i < |t| && HasProtocols(TagEntry(t[i])) ensures TagEntry(t[i]) in Pruned(t) {
      assert r[i] == TagEntry(t[i]);
    }
  }

  /** When the inventory arrives with no protocol enabled on any node (as the
      node query returns it), every node left after setup has exactly the
      protocol list ['iSCSI'], a non-empty iSCSI name and an address, so a
      portal can always be built from it. */
  lemma PrunedNodesServable(t: Table)
    requires forall i :: 0 <= i < |t| ==> t[i].1.enabledProtocols == []
    ensures forall e :: e in Pruned(t) ==>
              (e.1.enabledProtocols == [ISCSI_PROTOCOL] && e.1.iscsiName != "" && Portal(e.1).Ok?)
  {
    PrunedMembership(t);
    forall e | e in Pruned(t)
      ensures e.1.enabledProtocols == [ISCSI_PROTOCOL] && e.1.iscsiName != "" && Portal(e.1).Ok?
    {
      var i :| 0 <= i < |t| && e == TagEntry(t[i]);
      assert HasProtocols(e);
    }
  }

  // ---------------------------------------------------------------------
  // Choice of the serving node
  // ---------------------------------------------------------------------

  predicate Enabled(n: Node, protocol: string) {
    protocol in n.enabledProtocols
  }

  predicate InIOGroup(n: Node, protocol: string, ioGroup: string) {
    Enabled(n, protocol) && n.ioGroup == ioGroup
  }

  predicate IsPreferred(n: Node, protocol: string, preferred: string) {
    Enabled(n, protocol) && n.id == preferred
  }

  /** `io_group_nodes`: the protocol-enabled nodes of the I/O group, in order. */
  function IOGroupNodes(nodes: seq<Node>, protocol: string, ioGroup: string): (r: seq<Node>)
    ensures forall n :: n in r <==> n in nodes && InIOGroup(n, protocol, ioGroup)
  {
    if nodes == [] then []
    else
      var s := nodes[..|nodes| - 1];
      assert nodes == s + [nodes[|nodes| - 1]];
      IOGroupNodes(s, protocol, ioGroup)
        + (if InIOGroup(nodes[|nodes| - 1], protocol, ioGroup) then [nodes[|nodes| - 1]] else [])
  }

  /** `preferred_node_entry`: the last protocol-enabled node whose id is the
      preferred one, whatever its I/O group. */
  function PreferredEntry(nodes: seq<Node>, protocol: string, preferred: string): (r: Option<Node>)
    ensures r.Some? ==> r.value in nodes && IsPreferred(r.value, protocol, preferred)
    ensures r.None? <==> forall n :: n in nodes ==> !IsPreferred(n, protocol, preferred)
  {
    if nodes == [] then None
    else
      var s := nodes[..|nodes| - 1];
      assert nodes == s + [nodes[|nodes| - 1]];
      if IsPreferred(nodes[|nodes| - 1], protocol, preferred) then Some(nodes[|nodes| - 1])
      else PreferredEntry(s, protocol, preferred)
  }

  /** `preferred_node_entry` is overwritten on every match, so it is the
      last preferred node of the table: no later node is preferred. */
  lemma {:induction false} PreferredIsLast(nodes: seq<Node>, protocol: string, preferred: string)
    requires PreferredEntry(nodes, protocol, preferred).Some?
    ensures exists k :: (0 <= k < |nodes| && nodes[k] == PreferredEntry(nodes, protocol, preferred).value
                         && forall j :: k < j < |nodes| ==> !IsPreferred(nodes[j], protocol, preferred))
  {
    var s := nodes[..|nodes| - 1];
    if !IsPreferred(nodes[|nodes| - 1], protocol, preferred) {
      PreferredIsLast(s, protocol, preferred);
      var k :| 0 <= k < |s| && s[k] == PreferredEntry(s, protocol, preferred).value
        && forall j :: k < j < |s| ==> !IsPreferred(s[j], protocol, preferred);
      assert nodes[k] == s[k];
      assert forall j :: k < j < |s| ==> nodes[j] == s[j];
    }
  }

  /** The first candidate is the first protocol-enabled node of the I/O group
      in the table's iteration order. */
  lemma {:induction false} FirstCandidate(nodes: seq<Node>, protocol: string, ioGroup: string)
    requires IOGroupNodes(nodes, protocol, ioGroup) != []
    ensures exists k :: (0 <= k < |nodes| && nodes[k] == IOGroupNodes(nodes, protocol, ioGroup)[0]
                         && forall j :: 0 <= j < k ==> !InIOGroup(nodes[j], protocol, ioGroup))
  {
    var s := nodes[..|nodes| - 1];
    var c := IOGroupNodes(nodes, protocol, ioGroup);
    var cs := IOGroupNodes(s, protocol, ioGroup);
    assert c == cs + (if InIOGroup(nodes[|nodes| - 1], protocol, ioGroup) then [nodes[|nodes| - 1]] else []);
    if cs != [] {
      FirstCandidate(s, protocol, ioGroup);
      var k :| 0 <= k < |s| && s[k] == cs[0]
        && (forall j :: 0 <= j < k ==> !InIOGroup(s[j], protocol, ioGroup));
      assert c[0] == cs[0];
      assert nodes[k] == s[k];
      assert forall j :: 0 <= j < k ==> nodes[j] == s[j];
    } else {
      var k := |nodes| - 1;
      forall j | 0 <= j < k ensures !InIOGroup(nodes[j], protocol, ioGroup) {
        assert nodes[j] == s[j] && s[j] in s;
      }
      assert c == [nodes[k]];
    }
  }

  /** The node-selection block: raise when the I/O group has no candidate,
      otherwise the preferred entry, or else the first candidate. */
  function SelectNode(nodes: seq<Node>, protocol: string, preferred: string, ioGroup: string): (r: Result<Node>)
    ensures r.Err? <==> IOGroupNodes(nodes, protocol, ioGroup) == []
    ensures r.Err? ==> r.error == NoNodeInIOGroup
    ensures r.Ok? ==> r.value in nodes && Enabled(r.value, protocol)
    ensures r.Ok? && (exists n :: n in nodes && IsPreferred(n, protocol, preferred)) ==> r.value.id == preferred
    ensures r.Ok? && (forall n :: n in nodes ==> !IsPreferred(n, protocol, preferred)) ==>
              (r.value.ioGroup == ioGroup && r.value == IOGroupNodes(nodes, protocol, ioGroup)[0])
  {
    var candidates := IOGroupNodes(nodes, protocol, ioGroup);
    if candidates == [] then Err(NoNodeInIOGroup)
    else
      assert candidates[0] in candidates;
      match PreferredEntry(nodes, protocol, preferred)
      case Some(n) => Ok(n)
      case None => Ok(candidates[0])
  }

  /** The preferred-node match is not restricted to the volume's I/O group:
      a preferred node in another group wins over the group's own node. */
  lemma PreferredMayLeaveIOGroup()
    ensures var a := Node("1", "node1", ["10.0.0.1"], [], "iqn.a", "0", [ISCSI_PROTOCOL]);
            var b := Node("2", "node2", ["10.0.0.2"], [], "iqn.b", "1", [ISCSI_PROTOCOL]);
            SelectNode([a, b], ISCSI_PROTOCOL, "2", "0") == Ok(b) && b.ioGroup != "0"
  {
    var a := Node("1", "node1", ["10.0.0.1"], [], "iqn.a", "0", [ISCSI_PROTOCOL]);
    var b := Node("2", "node2", ["10.0.0.2"], [], "iqn.b", "1", [ISCSI_PROTOCOL]);
    assert [a, b][..1] == [a];
    assert IOGroupNodes([a], ISCSI_PROTOCOL, "0") == [a];
    assert IOGroupNodes([a, b], ISCSI_PROTOCOL, "0") == [a];
  }

  /** The selection loop of initialize_connection, walking the node table
      once and accumulating the preferred entry and the I/O-group nodes. */
  method SelectServingNode(nodes: seq<Node>, protocol: string, preferred: string, ioGroup: string)
    returns (r: Result<Node>)
    ensures r == SelectNode(nodes, protocol, preferred, ioGroup)
  {
    var preferredEntry: Option<Node> := None;
    var ioGroupNodes: seq<Node> := [];
    var i := 0;
    while i < |nodes|
      invariant 0 <= i <= |nodes|
      invariant preferredEntry == PreferredEntry(nodes[..i], protocol, preferred)
      invariant ioGroupNodes == IOGroupNodes(nodes[..i], protocol, ioGroup)
    {
      var node := nodes[i];
      assert nodes[..i + 1][..i] == nodes[..i];
      if protocol in node.enabledProtocols {
        if node.id == preferred {
          preferredEntry := Some(node);
        }
        if node.ioGroup == ioGroup {
          ioGroupNodes := ioGroupNodes + [node];
        }
      }
      i := i + 1;
    }
    assert nodes[..i] == nodes;
    if |ioGroupNodes| == 0 {
      return Err(NoNodeInIOGroup);
    }
    if preferredEntry.None? {
      preferredEntry := Some(ioGroupNodes[0]);
    }
    r := Ok(preferredEntry.value);
  }

  // ---------------------------------------------------------------------
  // Connection properties
  // ---------------------------------------------------------------------

  /** `'%s:%s' % (ipaddr, '3260')` with the first IPv4 address, or else the
      first IPv6 address; indexing an empty IPv6 list raises IndexError. */
  function Portal(n: Node): (r: Result<string>)
    ensures r.Err? <==> n.ipv4 == [] && n.ipv6 == []
    ensures r.Err? ==> r.error == IndexError
    ensures r.Ok? ==> exists addr :: (r.value == addr + ":" + ISCSI_PORT
                                      && if n.ipv4 != [] then addr == n.ipv4[0] else addr == n.ipv6[0])
  {
    if |n.ipv4| > 0 then Ok(n.ipv4[0] + ":" + ISCSI_PORT)
    else if |n.ipv6| > 0 then Ok(n.ipv6[0] + ":" + ISCSI_PORT)
    else Err(IndexError)
  }

  /** The properties dictionary built from the chosen node; the CHAP fields
      read `connector['initiator']`, which raises KeyError when it is absent. */
  function BuildProperties(node: Node, lun: nat, volumeId: string, chapSecret: Option<string>,
                           connector: Connector): (r: Result<Properties>)
    ensures r.Err? <==> Portal(node).Err? || (Truthy(chapSecret) && INITIATOR_KEY !in connector)
    ensures r.Err? && Portal(node).Err? ==> r.error == IndexError
    ensures r.Err? && Portal(node).Ok? ==> r.error == KeyError(INITIATOR_KEY)
    ensures r.Ok? ==> (!r.value.targetDiscovered && r.value.targetLun == lun
                       && r.value.volumeId == volumeId && r.value.targetIqn == node.iscsiName
                       && r.value.targetPortal == Portal(node).value)
    ensures r.Ok? ==> (r.value.auth.Some? <==> Truthy(chapSecret))
    ensures r.Ok? && r.value.auth.Some? ==>
              r.value.auth.value == ChapAuth(CHAP_METHOD, connector[INITIATOR_KEY], chapSecret.value,
                                             CHAP_METHOD, connector[INITIATOR_KEY], chapSecret.value)
  {
    match Portal(node)
    case Err(e) => Err(e)
    case Ok(portal) =>
      if Truthy(chapSecret) then
        if INITIATOR_KEY !in connector then Err(KeyError(INITIATOR_KEY))
        else
          var initiator := connector[INITIATOR_KEY];
          Ok(Properties(false, lun, volumeId, portal, node.iscsiName,
                        Some(ChapAuth(CHAP_METHOD, initiator, chapSecret.value,
                                      CHAP_METHOD, initiator, chapSecret.value))))
      else
        Ok(Properties(false, lun, volumeId, portal, node.iscsiName, None))
  }

  /** The body of the try block of initialize_connection: select the node,
      then build the properties from it. */
  function Connect(nodes: seq<Node>, protocol: string, preferred: string, ioGroup: string,
                   lun: nat, volumeId: string, chapSecret: Option<string>, connector: Connector)
    : (r: Result<Properties>)
    ensures SelectNode(nodes, protocol, preferred, ioGroup).Err? ==> r == Err(NoNodeInIOGroup)
    ensures r.Err? ==> (r.error == NoNodeInIOGroup || r.error == IndexError || r.error == KeyError(INITIATOR_KEY))
    ensures r.Err? && INITIATOR_KEY in connector ==> r.error == NoNodeInIOGroup || r.error == IndexError
    ensures r.Ok? ==> exists n :: (n in nodes && Enabled(n, protocol)
                                   && r.value.targetIqn == n.iscsiName && Portal(n) == Ok(r.value.targetPortal))
  {
    match SelectNode(nodes, protocol, preferred, ioGroup)
    case Err(e) => Err(e)
    case Ok(node) => BuildProperties(node, lun, volumeId, chapSecret, connector)
  }
}
