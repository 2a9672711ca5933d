/** What the driver promises about attaching and detaching a volume, proved
    over the functions its methods compute: connector validation, host
    reuse, the CHAP policy, the order of the failures, the rollback, host
    reclamation and the controller invariant. */
module IscsiProperties {
  import opened IscsiTypes
  import opened NodeTable
  import opened Controller
  import opened IscsiDriver

  // ---------------------------------------------------------------------
  // Helper-level facts
  // ---------------------------------------------------------------------

  /** Unmapping a volume from a host takes exactly that volume off the host's list. */
  lemma MappedVolumesAfterUnmap(b: Backend, vol: string, h: HostId)
    ensures MappedVolumes(b.(mappings := b.mappings - {(vol, h)}), h) == MappedVolumes(b, h) - {vol}
  {
    var b' := b.(mappings := b.mappings - {(vol, h)});
    forall v | v in MappedVolumes(b, h) - {vol} ensures v in MappedVolumes(b', h) {
      assert (v, h) in b'.mappings;
    }
  }

  /** Mapping a volume that was mapped nowhere makes the new host its only host. */
  lemma MappedHostsAfterMap(b: Backend, b': Backend, vol: string, h: HostId, lun: nat)
    requires MappedHosts(b, vol) == {} && b'.mappings == b.mappings[(vol, h) := lun]
    ensures MappedHosts(b', vol) == {h}
  {
    assert (vol, h) in b'.mappings;
    forall g | g in MappedHosts(b', vol) ensures g == h {
      assert (vol, g) in b.mappings ==> g in MappedHosts(b, vol);
    }
  }

  /** A host with no mapping is not the host of any mapping. */
  lemma UnmappedHostHasNoMapping(b: Backend, h: HostId)
    requires MappedVolumes(b, h) == {}
    ensures forall k :: k in b.mappings ==> k.1 != h
  {
    forall k | k in b.mappings ensures k.1 != h {
      assert k.1 == h ==> k.0 in MappedVolumes(b, h);
    }
  }

  // ---------------------------------------------------------------------
  // The controller invariant
  // ---------------------------------------------------------------------

  lemma WithMappingValid(b: Backend, vol: string, h: HostId, multihostmap: bool)
    requires b.Valid() && h in b.hosts
    ensures WithMapping(b, vol, h, multihostmap).Ok? ==> WithMapping(b, vol, h, multihostmap).value.0.Valid()
  {
    var r := WithMapping(b, vol, h, multihostmap);
    if r.Ok? && (vol, h) !in b.mappings {
      var b' := r.value.0;
      assert b'.mappings[(vol, h)] == b.nextLun;
      forall k | k in b'.mappings ensures k.1 in b'.hosts && b'.mappings[k] < b'.nextLun {
        if k != (vol, h) {
          assert k in b.mappings;
        }
      }
    }
  }

  lemma WithoutMappingValid(b: Backend, vol: string, h: Option<HostId>)
    requires b.Valid()
    ensures WithoutMapping(b, vol, h).0.Valid()
    ensures WithoutMapping(b, vol, h).1.Some? ==> WithoutMapping(b, vol, h).1.value in b.hosts
  {
  }

  lemma ReclaimValid(b: Backend, affected: Option<HostId>)
    requires b.Valid()
    ensures Reclaim(b, affected).Valid()
  {
    if affected.Some? && MappedVolumes(b, affected.value) == {} {
      UnmappedHostHasNoMapping(b, affected.value);
      var b' := WithoutHost(b, affected.value);
      forall i | i in b'.hostByInitiator ensures b'.hostByInitiator[i] in b'.hosts {
        assert b'.hostByInitiator[i] == b.hostByInitiator[i];
      }
    }
  }

  /** terminate_connection keeps the controller invariant. */
  lemma TerminateValid(b: Backend, volume: Volume, connector: Connector)
    requires b.Valid()
    ensures Terminate(b, volume, connector).0.Valid()
  {
    if HOST_KEY in connector {
      var h := HostFromConnector(b, connector);
      if h.Some? {
        WithoutMappingValid(b, volume.name, h);
        var (b1, affected) := WithoutMapping(b, volume.name, h);
        ReclaimValid(b1, affected);
      }
    } else {
      WithoutMappingValid(b, volume.name, None);
      var (b1, affected) := WithoutMapping(b, volume.name, None);
      ReclaimValid(b1, affected);
    }
  }

  /** The steps of initialize_connection up to the mapping keep the
      controller invariant, and the host they settle on is a live host. */
  lemma PrepareMappingValid(b: Backend, chapEnabled: bool, multihostmap: bool, volume: Volume,
                            connector: Connector, newSecret: string)
    requires b.Valid()
    ensures PrepareMapping(b, chapEnabled, multihostmap, volume, connector, newSecret).0.Valid()
  {
    var p := PrepareMapping(b, chapEnabled, multihostmap, volume, connector, newSecret);
    var r := ResolveHost(b, connector);
    if r.Ok? {
      var (b1, host) := r.value;
      assert b1.Valid() && host in b1.hosts;
      var n := NegotiateChap(b1, host, chapEnabled, newSecret);
      assert n.0.Valid();
      var m := WithMapping(n.0, volume.name, host, multihostmap);
      WithMappingValid(n.0, volume.name, host, multihostmap);
      if VdiskAttributes(n.0, volume.name).Some? && m.Ok? {
        assert p.0 == m.value.0;
      } else {
        assert p.0 == n.0;
      }
    } else {
      assert p.0 == b;
    }
  }

  /** initialize_connection keeps the controller invariant, on every
      outcome including the rollback. */
  lemma InitializeValid(b: Backend, nodes: seq<Node>, chapEnabled: bool, multihostmap: bool,
                        volume: Volume, connector: Connector, protocol: string, newSecret: string)
    requires b.Valid()
    ensures Initialize(b, nodes, chapEnabled, multihostmap, volume, connector, protocol, newSecret).0.Valid()
  {
    PrepareMappingValid(b, chapEnabled, multihostmap, volume, connector, newSecret);
    var p := PrepareMapping(b, chapEnabled, multihostmap, volume, connector, newSecret);
    TerminateValid(p.0, volume, connector);
    var r := Initialize(b, nodes, chapEnabled, multihostmap, volume, connector, protocol, newSecret);
    if p.1.Ok? && r.1.Err? && r.1.error != MissingVolumeAttribute {
      assert r.0 == Terminate(p.0, volume, connector).0;
    } else {
      assert r.0 == p.0;
    }
  }

  // ---------------------------------------------------------------------
  // Connector validation and host resolution
  // ---------------------------------------------------------------------

  /** The attach fails for a missing connector key exactly when
      validate_connector rejects the connector, and then it fails first,
      before anything on the controller changes. */
  lemma ConnectorErrorsIffInvalid(b: Backend, nodes: seq<Node>, chapEnabled: bool, multihostmap: bool,
                                  volume: Volume, connector: Connector, protocol: string, newSecret: string)
    ensures var r := Initialize(b, nodes, chapEnabled, multihostmap, volume, connector, protocol, newSecret);
            (r.1.Err? && (r.1.error.InvalidConnector? || r.1.error.KeyError?)) <==> ValidateConnector(connector).Err?
    ensures ValidateConnector(connector).Err? ==>
              Initialize(b, nodes, chapEnabled, multihostmap, volume, connector, protocol, newSecret)
                == (b, Err(InvalidConnector(INITIATOR_KEY)))
  {
    var p := PrepareMapping(b, chapEnabled, multihostmap, volume, connector, newSecret);
    if p.1.Ok? {
      var a := p.1.value;
      var r := AfterMapping(p.0, nodes, protocol, a.attrs, a.lun, a.secret, volume, connector);
      assert INITIATOR_KEY in connector;
      if PREFERRED_NODE_KEY in a.attrs && IO_GROUP_KEY in a.attrs {
        var c := Connect(nodes, protocol, a.attrs[PREFERRED_NODE_KEY], a.attrs[IO_GROUP_KEY],
                         a.lun, volume.id, a.secret, connector);
        assert c.Err? ==> c.error == NoNodeInIOGroup || c.error == IndexError;
      }
    }
  }

  /** Resolving the host a second time with the same connector finds the
      host the first resolution returned and creates nothing; the first
      resolution creates at most one host, and none when the initiator is
      already registered. */
  lemma ResolveHostIdempotent(b: Backend, c: Connector)
    requires ResolveHost(b, c).Ok?
    ensures var (b1, h) := ResolveHost(b, c).value;
            ResolveHost(b1, c) == Ok((b1, h))
            && b1.hosts - b.hosts <= {h}
            && (HostFromConnector(b, c).Some? ==> b1 == b)
  {
    var (b1, h) := ResolveHost(b, c).value;
    assert HostFromConnector(b1, c) == Some(h);
  }


  // ---------------------------------------------------------------------
  // Attach: success, re-attach, failures in order
  // ---------------------------------------------------------------------

  /** A successful attach returns an iSCSI connection for a host registered
      under the connector's initiator: the volume is mapped to that host
      with the returned LUN id and nothing else in the mapping table
      changes; target and portal come from the node the selection rule
      picks for the volume's preferred node and I/O group; the CHAP fields
      are present exactly when the host's secret is truthy, and carry that
      secret and the initiator; with CHAP enabled the host has a secret. */
  lemma AttachSucceeds(b: Backend, nodes: seq<Node>, chapEnabled: bool, multihostmap: bool, volume: Volume,
                       connector: Connector, protocol: string, newSecret: string, b': Backend, info: ConnectionInfo)
    requires Initialize(b, nodes, chapEnabled, multihostmap, volume, connector, protocol, newSecret) == (b', Ok(info))
    ensures info.Info? && info.driverVolumeType == DRIVER_VOLUME_TYPE && info.data.Props?
    ensures INITIATOR_KEY in connector && HostFromConnector(b', connector).Some?
    ensures var h := HostFromConnector(b', connector).value;
            var p := info.data.properties;
            && b'.mappings == b.mappings[(volume.name, h) := p.targetLun]
            && p.volumeId == volume.id && !p.targetDiscovered
            && (p.auth.Some? <==> Truthy(ChapSecret(b', h)))
            && (p.auth.Some? ==> p.auth.value == ChapAuth(CHAP_METHOD, connector[INITIATOR_KEY], ChapSecret(b', h).value,
                                                           CHAP_METHOD, connector[INITIATOR_KEY], ChapSecret(b', h).value))
            && (chapEnabled ==> ChapSecret(b', h).Some?)
    ensures volume.name in b.vdisks && PREFERRED_NODE_KEY in b.vdisks[volume.name] && IO_GROUP_KEY in b.vdisks[volume.name]
    ensures var attrs := b.vdisks[volume.name];
            var n := SelectNode(nodes, protocol, attrs[PREFERRED_NODE_KEY], attrs[IO_GROUP_KEY]);
            && n.Ok?
            && info.data.properties.targetIqn == n.value.iscsiName
            && Portal(n.value) == Ok(info.data.properties.targetPortal)
  {
    var p := PrepareMapping(b, chapEnabled, multihostmap, volume, connector, newSecret);
    var a := p.1.value;
    assert p.0 == b';
    var n := SelectNode(nodes, protocol, a.attrs[PREFERRED_NODE_KEY], a.attrs[IO_GROUP_KEY]);
    var c := Connect(nodes, protocol, a.attrs[PREFERRED_NODE_KEY], a.attrs[IO_GROUP_KEY],
                     a.lun, volume.id, a.secret, connector);
    assert info == Info(DRIVER_VOLUME_TYPE, Props(c.value));
    assert c == BuildProperties(n.value, a.lun, volume.id, a.secret, connector);
  }

  /** Attaching the same volume through the same connector again, after a
      successful attach, finds the same host, keeps its secret, reuses the
      mapping, changes nothing and returns the same connection, whatever
      secret the controller would generate this time. */
  lemma ReattachIsStable(b: Backend, nodes: seq<Node>, chapEnabled: bool, multihostmap: bool, volume: Volume,
                         connector: Connector, protocol: string, newSecret: string, anotherSecret: string,
                         b': Backend, info: ConnectionInfo)
    requires Initialize(b, nodes, chapEnabled, multihostmap, volume, connector, protocol, newSecret) == (b', Ok(info))
    ensures Initialize(b', nodes, chapEnabled, multihostmap, volume, connector, protocol, anotherSecret) == (b', Ok(info))
  {
    var p := PrepareMapping(b, chapEnabled, multihostmap, volume, connector, newSecret);
    var a := p.1.value;
    assert p.0 == b';
    assert ResolveHost(b', connector) == Ok((b', a.host));
    assert NegotiateChap(b', a.host, chapEnabled, anotherSecret) == (b', a.secret);
    assert VdiskAttributes(b', volume.name) == Some(a.attrs);
    assert WithMapping(b', volume.name, a.host, multihostmap) == Ok((b', a.lun));
    assert PrepareMapping(b', chapEnabled, multihostmap, volume, connector, anotherSecret) == (b', Ok(a));
  }

  /** An unknown volume fails the attach after the host and CHAP steps and
      before any mapping: the mapping table is untouched, while a host
      created on the way stays registered. */
  lemma AttributesUnavailableMapsNothing(b: Backend, nodes: seq<Node>, chapEnabled: bool, multihostmap: bool,
                                         volume: Volume, connector: Connector, protocol: string, newSecret: string)
    requires INITIATOR_KEY in connector && volume.name !in b.vdisks
    ensures var r := Initialize(b, nodes, chapEnabled, multihostmap, volume, connector, protocol, newSecret);
            && r.1 == Err(VolumeAttributesUnavailable)
            && r.0.mappings == b.mappings && r.0.nextLun == b.nextLun
            && HostFromConnector(r.0, connector).Some?
  {
    var h := ResolveHost(b, connector).value;
    var n := NegotiateChap(h.0, h.1, chapEnabled, newSecret);
    assert PrepareMapping(b, chapEnabled, multihostmap, volume, connector, newSecret)
        == (n.0, Err(VolumeAttributesUnavailable));
  }

  /** A missing lsvdisk column fails the attach after the mapping has been
      made, and that mapping is not rolled back. */
  lemma MissingColumnKeepsMapping(b: Backend, nodes: seq<Node>, chapEnabled: bool, multihostmap: bool,
                                  volume: Volume, connector: Connector, protocol: string, newSecret: string,
                                  b': Backend)
    requires Initialize(b, nodes, chapEnabled, multihostmap, volume, connector, protocol, newSecret)
               == (b', Err(MissingVolumeAttribute))
    ensures volume.name in b.vdisks
    ensures PREFERRED_NODE_KEY !in b.vdisks[volume.name] || IO_GROUP_KEY !in b.vdisks[volume.name]
    ensures HostFromConnector(b', connector).Some?
    ensures (volume.name, HostFromConnector(b', connector).value) in b'.mappings
  {
    var p := PrepareMapping(b, chapEnabled, multihostmap, volume, connector, newSecret);
    assert p.1.Ok?;
    var a := p.1.value;
    assert b' == p.0;
  }

  // ---------------------------------------------------------------------
  // Rollback
  // ---------------------------------------------------------------------

  /** When the volume is mapped but the node selection or the property
      assembly fails, the error that propagates is that failure and the
      state is the one terminate_connection leaves behind. */
  lemma RollbackState(b: Backend, nodes: seq<Node>, chapEnabled: bool, multihostmap: bool, volume: Volume,
                      connector: Connector, protocol: string, newSecret: string,
                      b3: Backend, a: Attachment, b': Backend, e: Error)
    requires PrepareMapping(b, chapEnabled, multihostmap, volume, connector, newSecret) == (b3, Ok(a))
    requires Initialize(b, nodes, chapEnabled, multihostmap, volume, connector, protocol, newSecret) == (b', Err(e))
    requires e != MissingVolumeAttribute
    ensures e == NoNodeInIOGroup || e == IndexError
    ensures PREFERRED_NODE_KEY in a.attrs && IO_GROUP_KEY in a.attrs
    ensures Connect(nodes, protocol, a.attrs[PREFERRED_NODE_KEY], a.attrs[IO_GROUP_KEY],
                    a.lun, volume.id, a.secret, connector) == Err(e)
    ensures b' == Terminate(b3, volume, connector).0
  {
    assert INITIATOR_KEY in connector;
    assert Initialize(b, nodes, chapEnabled, multihostmap, volume, connector, protocol, newSecret)
        == AfterMapping(b3, nodes, protocol, a.attrs, a.lun, a.secret, volume, connector);
  }

  /** Once the volume is mapped and both lsvdisk columns are present, the
      attach raises exactly the exception of the try block, after rolling
      back: a volume whose I/O group has no protocol-enabled node raises
      NoNodeInIOGroup, and a chosen node without any address raises
      IndexError. */
  lemma TryBlockErrorPropagates(b: Backend, nodes: seq<Node>, chapEnabled: bool, multihostmap: bool,
                                volume: Volume, connector: Connector, protocol: string, newSecret: string,
                                b3: Backend, a: Attachment)
    requires PrepareMapping(b, chapEnabled, multihostmap, volume, connector, newSecret) == (b3, Ok(a))
    requires PREFERRED_NODE_KEY in a.attrs && IO_GROUP_KEY in a.attrs
    ensures var r := Initialize(b, nodes, chapEnabled, multihostmap, volume, connector, protocol, newSecret);
            IOGroupNodes(nodes, protocol, a.attrs[IO_GROUP_KEY]) == [] ==>
              r == (Terminate(b3, volume, connector).0, Err(NoNodeInIOGroup))
    ensures var r := Initialize(b, nodes, chapEnabled, multihostmap, volume, connector, protocol, newSecret);
            var n := SelectNode(nodes, protocol, a.attrs[PREFERRED_NODE_KEY], a.attrs[IO_GROUP_KEY]);
            n.Ok? && n.value.ipv4 == [] && n.value.ipv6 == [] ==>
              r == (Terminate(b3, volume, connector).0, Err(IndexError))
  {
    assert Initialize(b, nodes, chapEnabled, multihostmap, volume, connector, protocol, newSecret)
        == AfterMapping(b3, nodes, protocol, a.attrs, a.lun, a.secret, volume, connector);
  }

  /** terminate_connection right after the volume was mapped to the
      connector's host succeeds. With the 'host' key it removes exactly that
      pair, even when the mapping existed before; without it, a volume that
      was mapped nowhere before is mapped nowhere again. */
  lemma TerminateAfterMapping(b: Backend, b3: Backend, volume: Volume, connector: Connector,
                                                 h: HostId, lun: nat)
    requires HostFromConnector(b3, connector) == Some(h)
    requires b3.mappings == b.mappings[(volume.name, h) := lun]
    ensures Terminate(b3, volume, connector).1.Ok?
    ensures HOST_KEY in connector ==> Terminate(b3, volume, connector).0.mappings == b.mappings - {(volume.name, h)}
    ensures HOST_KEY !in connector && MappedHosts(b, volume.name) == {} ==>
              Terminate(b3, volume, connector).0.mappings == b.mappings
  {
    var t := Terminate(b3, volume, connector);
    if HOST_KEY in connector {
      var u := WithoutMapping(b3, volume.name, Some(h));
      assert t.0.mappings == u.0.mappings;
    } else if MappedHosts(b, volume.name) == {} {
      MappedHostsAfterMap(b, b3, volume.name, h, lun);
      var u := WithoutMapping(b3, volume.name, None);
      assert u.1 == Some(h);
      assert t.0.mappings == u.0.mappings;
    }
  }

  /** terminate_connection right after a fresh host was created and the
      volume mapped to it, when it unmaps that pair, deletes the host again
      and leaves the controller as it was before the host was created, apart
      from its id counters. */
  lemma TerminateForgetsFreshHost(b: Backend, b3: Backend, volume: Volume, connector: Connector, h: HostId, lun: nat)
    requires b.Valid() && h !in b.hosts && INITIATOR_KEY in connector
    requires HostFromConnector(b, connector).None?
    requires HOST_KEY in connector || MappedHosts(b, volume.name) == {}
    requires b3.hosts == b.hosts + {h} && b3.vdisks == b.vdisks
    requires b3.hostByInitiator == b.hostByInitiator[connector[INITIATOR_KEY] := h]
    requires forall g :: g != h ==> ChapSecret(b3, g) == ChapSecret(b, g)
    requires b3.mappings == b.mappings[(volume.name, h) := lun]
    ensures Terminate(b3, volume, connector).0 == b.(nextHost := b3.nextHost, nextLun := b3.nextLun)
  {
    UnmapFreshPair(b, b3, volume, connector, h, lun);
    var u := WithoutMapping(b3, volume.name, if HOST_KEY in connector then Some(h) else None);
    assert Terminate(b3, volume, connector).0 == WithoutHost(u.0, h);
    FreshHostRemoved(b, u.0, connector[INITIATOR_KEY], h);
  }

  /** The unmap of that terminate_connection removes the pair just mapped,
      which leaves the fresh host without mappings. */
  lemma UnmapFreshPair(b: Backend, b3: Backend, volume: Volume, connector: Connector, h: HostId, lun: nat)
    requires b.Valid() && h !in b.hosts
    requires HOST_KEY in connector || MappedHosts(b, volume.name) == {}
    requires b3.mappings == b.mappings[(volume.name, h) := lun]
    ensures WithoutMapping(b3, volume.name, if HOST_KEY in connector then Some(h) else None)
              == (b3.(mappings := b.mappings), Some(h))
    ensures MappedVolumes(b3.(mappings := b.mappings), h) == {}
  {
    assert (volume.name, h) !in b.mappings;
    assert b3.mappings - {(volume.name, h)} == b.mappings;
    if HOST_KEY !in connector {
      MappedHostsAfterMap(b, b3, volume.name, h, lun);
    }
    forall k | k in b.mappings ensures k.1 != h {
      assert k.1 in b.hosts;
    }
  }

  /** Deleting a host that was added to the controller, with its initiator
      and perhaps a secret but no mapping, restores the controller. */
  lemma FreshHostRemoved(b: Backend, b4: Backend, i: string, h: HostId)
    requires b.Valid() && h !in b.hosts && i !in b.hostByInitiator
    requires b4.hosts == b.hosts + {h} && b4.vdisks == b.vdisks && b4.mappings == b.mappings
    requires b4.hostByInitiator == b.hostByInitiator[i := h]
    requires forall g :: g != h ==> ChapSecret(b4, g) == ChapSecret(b, g)
    ensures WithoutHost(b4, h) == b.(nextHost := b4.nextHost, nextLun := b4.nextLun)
  {
    SecretsRestored(b, b4, h);
    var w := WithoutHost(b4, h);
    assert w.hostByInitiator == b.hostByInitiator by {
      forall j | j in b.hostByInitiator ensures j in w.hostByInitiator {
        assert b.hostByInitiator[j] in b.hosts;
      }
    }
  }

  /** Dropping the secret of a host that had none before restores the secrets. */
  lemma SecretsRestored(b: Backend, b3: Backend, h: HostId)
    requires h !in b.chapSecrets
    requires forall g :: g != h ==> ChapSecret(b3, g) == ChapSecret(b, g)
    ensures b3.chapSecrets - {h} == b.chapSecrets
  {
    var m := b3.chapSecrets - {h};
    forall g | g in m ensures g in b.chapSecrets && m[g] == b.chapSecrets[g] {
      assert ChapSecret(b3, g) == ChapSecret(b, g);
    }
    forall g | g in b.chapSecrets ensures g in m {
      assert ChapSecret(b3, g) == ChapSecret(b, g);
    }
  }

  /** A failed attach that created its host, rolled back with the 'host'
      key or for a volume mapped nowhere before, leaves the controller as it
      found it apart from its id counters. Once PrepareMapping has
      succeeded, Initialize is AfterMapping on its outcome. */
  lemma RollbackForgetsNewHost(b: Backend, nodes: seq<Node>, chapEnabled: bool, multihostmap: bool, volume: Volume,
                               connector: Connector, protocol: string, newSecret: string,
                               b3: Backend, a: Attachment, b': Backend, e: Error)
    requires b.Valid() && HostFromConnector(b, connector).None?
    requires HOST_KEY in connector || MappedHosts(b, volume.name) == {}
    requires PrepareMapping(b, chapEnabled, multihostmap, volume, connector, newSecret) == (b3, Ok(a))
    requires AfterMapping(b3, nodes, protocol, a.attrs, a.lun, a.secret, volume, connector) == (b', Err(e))
    requires e != MissingVolumeAttribute
    ensures b' == b.(nextHost := b'.nextHost, nextLun := b'.nextLun)
  {
    TerminateForgetsFreshHost(b, b3, volume, connector, a.host, a.lun);
  }

  /** The rollback does not always undo the attach. Without the 'host' key
      terminate_connection unmaps only a volume mapped to exactly one host;
      with multi-host mapping on and the volume already mapped to host 0, a
      failed attach for a new initiator leaves its new host 1 and the
      mapping of the volume to it in place. */
  lemma RollbackLeavesMapping()
    ensures var b := Backend({0}, map["iqn.a" := 0], map[], map[("volume-1", 0) := 0],
                             map["volume-1" := EXAMPLE_ATTRS], 1, 1);
            var r := Initialize(b, [], false, true, EXAMPLE_VOLUME, map[INITIATOR_KEY := "iqn.b"],
                                ISCSI_PROTOCOL, "s3cret");
            && r.1 == Err(NoNodeInIOGroup)
            && ("volume-1", 1) in r.0.mappings && 1 in r.0.hosts
  {
    var b := Backend({0}, map["iqn.a" := 0], map[], map[("volume-1", 0) := 0],
                     map["volume-1" := EXAMPLE_ATTRS], 1, 1);
    var c := map[INITIATOR_KEY := "iqn.b"];
    assert c[INITIATOR_KEY] == "iqn.b";
    assert HostFromConnector(b, c) == None;
    var b1 := WithNewHost(b, c).value.0;
    assert WithNewHost(b, c).value.1 == 1;
    var (b3, lun) := WithMapping(b1, "volume-1", 1, true).value;
    assert b3.mappings == map[("volume-1", 0) := 0, ("volume-1", 1) := lun];
    assert PrepareMapping(b, false, true, EXAMPLE_VOLUME, c, "s3cret")
        == (b3, Ok(Attachment(1, lun, None, EXAMPLE_ATTRS)));
    assert EXAMPLE_ATTRS[PREFERRED_NODE_KEY] == "1" && EXAMPLE_ATTRS[IO_GROUP_KEY] == "0";
    assert MappedHosts(b3, "volume-1") == {0, 1};
    assert WithoutMapping(b3, "volume-1", None) == (b3, None);
  }

  // ---------------------------------------------------------------------
  // Detach
  // ---------------------------------------------------------------------

  /** Detaching with the 'host' key unmaps the volume from the connector's
      host and nothing else; that host, and no other, is deleted exactly
      when the volume was mapped to it and was its last mapping. */
  lemma DetachWithHostKey(b: Backend, volume: Volume, connector: Connector, h: HostId)
    requires HOST_KEY in connector && HostFromConnector(b, connector) == Some(h) && h in b.hosts
    ensures var t := Terminate(b, volume, connector).0;
            && t.mappings == b.mappings - {(volume.name, h)}
            && (t.hosts == b.hosts || t.hosts == b.hosts - {h})
            && (h !in t.hosts <==> (volume.name, h) in b.mappings && MappedVolumes(b, h) == {volume.name})
  {
    var u := WithoutMapping(b, volume.name, Some(h));
    if u.1.Some? {
      MappedVolumesAfterUnmap(b, volume.name, h);
      assert volume.name in MappedVolumes(b, h);
    }
  }

  /** Detaching without the 'host' key unmaps the volume only when it is
      mapped to exactly one host; that host is then deleted exactly when
      the volume was its last mapping. Otherwise nothing changes. */
  lemma DetachWithoutHostKey(b: Backend, volume: Volume, connector: Connector)
    requires HOST_KEY !in connector
    ensures |MappedHosts(b, volume.name)| != 1 ==> Terminate(b, volume, connector).0 == b
    ensures forall h {:trigger MappedVolumes(b, h)} :: MappedHosts(b, volume.name) == {h} && h in b.hosts ==>
              (var t := Terminate(b, volume, connector).0;
               && t.mappings == b.mappings - {(volume.name, h)}
               && (h !in t.hosts <==> MappedVolumes(b, h) == {volume.name}))
  {
    forall h | MappedHosts(b, volume.name) == {h} && h in b.hosts
      ensures var t := Terminate(b, volume, connector).0;
              && t.mappings == b.mappings - {(volume.name, h)}
              && (h !in t.hosts <==> MappedVolumes(b, h) == {volume.name})
    {
      assert h in MappedHosts(b, volume.name);
      MappedVolumesAfterUnmap(b, volume.name, h);
      assert volume.name in MappedVolumes(b, h);
    }
  }

  /** Once a detach has deleted the connector's host, its initiator is no
      longer registered: a further detach with the 'host' key raises, and a
      further attach creates a new host. */
  lemma ReclaimedHostIsForgotten(b: Backend, volume: Volume, connector: Connector, h: HostId)
    requires b.Valid() && HostFromConnector(b, connector) == Some(h)
    requires h !in Terminate(b, volume, connector).0.hosts
    ensures HostFromConnector(Terminate(b, volume, connector).0, connector).None?
    ensures HOST_KEY in connector ==>
              Terminate(Terminate(b, volume, connector).0, volume, connector).1 == Err(HostNotFound)
  {
    var t := Terminate(b, volume, connector).0;
    var u := WithoutMapping(b, volume.name, if HOST_KEY in connector then Some(h) else None);
    assert u.1 == Some(h) && t == WithoutHost(u.0, h);
  }

  // ---------------------------------------------------------------------
  // Setup and attach together
  // ---------------------------------------------------------------------

  /** The try block never meets a node without an address when the node
      table is the one do_setup left from an inventory that came with no
      protocol enabled. */
  lemma ConnectOnPrunedTable(inventory: Table, protocol: string, preferred: string, ioGroup: string,
                             lun: nat, volumeId: string, secret: Option<string>, connector: Connector)
    requires forall i :: 0 <= i < |inventory| ==> inventory[i].1.enabledProtocols == []
    ensures Connect(Values(Pruned(inventory)), protocol, preferred, ioGroup, lun, volumeId, secret, connector)
              != Err(IndexError)
  {
    var nodes := Values(Pruned(inventory));
    var n := SelectNode(nodes, protocol, preferred, ioGroup);
    if n.Ok? {
      PrunedNodesServable(inventory);
      var k :| 0 <= k < |nodes| && nodes[k] == n.value;
      assert Pruned(inventory)[k] in Pruned(inventory);
    }
  }

  /** Hence an attach through the node table do_setup built never raises
      IndexError. */
  lemma AttachAfterSetupNoIndexError(inventory: Table, b: Backend, chapEnabled: bool, multihostmap: bool,
                                     volume: Volume, connector: Connector, protocol: string, newSecret: string)
    requires forall i :: 0 <= i < |inventory| ==> inventory[i].1.enabledProtocols == []
    ensures Initialize(b, Values(Pruned(inventory)), chapEnabled, multihostmap, volume, connector, protocol,
                       newSecret).1 != Err(IndexError)
  {
    var p := PrepareMapping(b, chapEnabled, multihostmap, volume, connector, newSecret);
    if p.1.Ok? {
      var a := p.1.value;
      if PREFERRED_NODE_KEY in a.attrs && IO_GROUP_KEY in a.attrs {
        ConnectOnPrunedTable(inventory, protocol, a.attrs[PREFERRED_NODE_KEY], a.attrs[IO_GROUP_KEY],
                             a.lun, volume.id, a.secret, connector);
      }
    }
  }

  // ---------------------------------------------------------------------
  // A worked example
  // ---------------------------------------------------------------------

  const EXAMPLE_IQN := "iqn.1986-03.com.ibm:2145.cluster.node1"
  const EXAMPLE_NODE := Node("1", "node1", ["10.0.0.5"], [], EXAMPLE_IQN, "0", [ISCSI_PROTOCOL])
  const EXAMPLE_VOLUME := Volume("v1", "volume-1")
  const EXAMPLE_ATTRS: Attributes := map[PREFERRED_NODE_KEY := "1", IO_GROUP_KEY := "0"]
  const EXAMPLE_EMPTY := Backend({}, map[], map[], map[], map["volume-1" := EXAMPLE_ATTRS], 0, 0)
  const EXAMPLE_ATTACHED := Backend({0}, map["iqn.test" := 0], map[0 := "s3cret"], map[("volume-1", 0) := 0],
                                    map["volume-1" := EXAMPLE_ATTRS], 1, 1)

  /** The steps up to the mapping of the example: the new initiator gets
      host 0 with the generated secret, and the volume is mapped as LUN 0. */
  lemma ExampleMapping()
    ensures PrepareMapping(EXAMPLE_EMPTY, true, false, EXAMPLE_VOLUME, map[INITIATOR_KEY := "iqn.test"], "s3cret")
         == (EXAMPLE_ATTACHED, Ok(Attachment(0, 0, Some("s3cret"), EXAMPLE_ATTRS)))
  {
    var c := map[INITIATOR_KEY := "iqn.test"];
    var e := EXAMPLE_EMPTY;
    var b1 := e.(hosts := {0}, hostByInitiator := map["iqn.test" := 0], nextHost := 1);
    var b2 := b1.(chapSecrets := map[0 := "s3cret"]);
    assert c[INITIATOR_KEY] == "iqn.test";
    assert HostFromConnector(e, c) == None;
    assert e.hostByInitiator[c[INITIATOR_KEY] := 0] == map["iqn.test" := 0];
    assert e.hosts + {0} == {0} && e.nextHost == 0;
    assert WithNewHost(e, c) == Ok((b1, 0));
    assert NegotiateChap(b1, 0, true, "s3cret") == (b2, Some("s3cret"));
    assert MappedHosts(b2, "volume-1") == {};
    assert WithMapping(b2, "volume-1", 0, false) == Ok((EXAMPLE_ATTACHED, 0));
  }

  /** The try block of the example: node 1 is the preferred node, and the
      properties carry its portal and target name and the CHAP fields. */
  lemma ExampleConnect()
    ensures Connect([EXAMPLE_NODE], ISCSI_PROTOCOL, "1", "0", 0, "v1", Some("s3cret"), map[INITIATOR_KEY := "iqn.test"])
         == Ok(Properties(false, 0, "v1", "10.0.0.5:3260", EXAMPLE_IQN,
                          Some(ChapAuth(CHAP_METHOD, "iqn.test", "s3cret", CHAP_METHOD, "iqn.test", "s3cret"))))
  {
    assert [EXAMPLE_NODE][..0] == [];
    assert IOGroupNodes([EXAMPLE_NODE], ISCSI_PROTOCOL, "0") == [EXAMPLE_NODE];
    assert PreferredEntry([EXAMPLE_NODE], ISCSI_PROTOCOL, "1") == Some(EXAMPLE_NODE);
    assert SelectNode([EXAMPLE_NODE], ISCSI_PROTOCOL, "1", "0") == Ok(EXAMPLE_NODE);
    assert "10.0.0.5" + ":" + ISCSI_PORT == "10.0.0.5:3260";
    assert Portal(EXAMPLE_NODE) == Ok("10.0.0.5:3260");
  }

  /** Attaching a volume whose preferred node has IPv4 address 10.0.0.5,
      for a new initiator with CHAP enabled, creates the host with the
      generated secret, maps the volume as LUN 0 and returns the portal
      10.0.0.5:3260, the node's target name and the CHAP fields. */
  lemma ExampleAttach()
    ensures Initialize(EXAMPLE_EMPTY, [EXAMPLE_NODE], true, false, EXAMPLE_VOLUME,
                       map[INITIATOR_KEY := "iqn.test"], ISCSI_PROTOCOL, "s3cret")
         == (EXAMPLE_ATTACHED,
             Ok(Info(DRIVER_VOLUME_TYPE,
                     Props(Properties(false, 0, "v1", "10.0.0.5:3260", EXAMPLE_IQN,
                                      Some(ChapAuth(CHAP_METHOD, "iqn.test", "s3cret",
                                                    CHAP_METHOD, "iqn.test", "s3cret")))))))
  {
    ExampleMapping();
    ExampleConnect();
    assert EXAMPLE_ATTRS[PREFERRED_NODE_KEY] == "1" && EXAMPLE_ATTRS[IO_GROUP_KEY] == "0";
  }

  /** Detaching it again, with a connector that names no 'host', returns
      `{}`, unmaps the volume (its only mapping) and deletes the host, which
      leaves only the id counters moved on; with the 'host' key the reply
      is the iSCSI dictionary with empty data and the state is the same. */
  lemma ExampleDetach()
    ensures Terminate(EXAMPLE_ATTACHED, EXAMPLE_VOLUME, map[INITIATOR_KEY := "iqn.test"])
         == (EXAMPLE_EMPTY.(nextHost := 1, nextLun := 1), Ok(EmptyInfo))
    ensures Terminate(EXAMPLE_ATTACHED, EXAMPLE_VOLUME, map[INITIATOR_KEY := "iqn.test", HOST_KEY := "compute-1"])
         == (EXAMPLE_EMPTY.(nextHost := 1, nextLun := 1), Ok(Info(DRIVER_VOLUME_TYPE, NoData)))
  {
    var b := EXAMPLE_ATTACHED;
    var detached := EXAMPLE_EMPTY.(nextHost := 1, nextLun := 1);
    assert b.mappings.Keys == {("volume-1", 0)};
    assert MappedHosts(b, "volume-1") == {0};
    var unmapped := b.(mappings := map[]);
    assert b.mappings - {("volume-1", 0)} == map[];
    assert WithoutMapping(b, "volume-1", None) == (unmapped, Some(0));
    assert WithoutMapping(b, "volume-1", Some(0)) == (unmapped, Some(0));
    assert MappedVolumes(unmapped, 0) == {};
    assert WithoutHost(unmapped, 0).hostByInitiator == map[];
    assert WithoutHost(unmapped, 0).chapSecrets == map[];
    assert Reclaim(unmapped, Some(0)) == detached;
    var c2 := map[INITIATOR_KEY := "iqn.test", HOST_KEY := "compute-1"];
    assert HostFromConnector(b, c2) == Some(0);
  }
}
