/** The Storwize/SVC iSCSI volume driver: setup-time pruning of the node
    table, connector validation, and the attach (initialize_connection) and
    detach (terminate_connection) sequences against the storage controller.
    Each public operation is a method of StorwizeSVCISCSIDriver proved
    equal to a function on the controller's state; the properties of those
    functions are proved in module IscsiProperties. */
module IscsiDriver {
  import opened IscsiTypes
  import opened NodeTable
  import opened Controller

  /** `validate_connector`: the connector must carry an initiator. */
  function ValidateConnector(c: Connector): (r: Result<()>)
    ensures r.Err? <==> INITIATOR_KEY !in c
    ensures r.Err? ==> r.error == InvalidConnector(INITIATOR_KEY)
  {
    if INITIATOR_KEY !in c then Err(InvalidConnector(INITIATOR_KEY)) else Ok(())
  }

  /** Find the host object for the connector, or create one. */
  function ResolveHost(b: Backend, c: Connector): (r: Result<(Backend, HostId)>)
    ensures HostFromConnector(b, c).Some? ==> r == Ok((b, HostFromConnector(b, c).value))
    ensures HostFromConnector(b, c).None? ==> r == WithNewHost(b, c)
  {
    match HostFromConnector(b, c)
    case Some(h) => Ok((b, h))
    case None => WithNewHost(b, c)
  }

  /** The CHAP step: install `newSecret` when CHAP is enabled and the host has
      no secret; otherwise keep whatever secret the host has (also when CHAP
      is disabled, where the source only logs a warning). Returns the state
      and `chap_secret`. */
  function NegotiateChap(b: Backend, h: HostId, chapEnabled: bool, newSecret: string): (r: (Backend, Option<string>))
    ensures chapEnabled && ChapSecret(b, h).None? ==> r == (WithChapSecret(b, h, newSecret), Some(newSecret))
    ensures !(chapEnabled && ChapSecret(b, h).None?) ==> r == (b, ChapSecret(b, h))
  {
    var secret := ChapSecret(b, h);
    if chapEnabled && secret.None? then (WithChapSecret(b, h, newSecret), Some(newSecret))
    else (b, secret)
  }

  /** Delete the host the unmap affected once it has no mappings left. */
  function Reclaim(b: Backend, affected: Option<HostId>): (r: Backend)
    ensures affected.None? || MappedVolumes(b, affected.value) != {} ==> r == b
    ensures affected.Some? && MappedVolumes(b, affected.value) == {} ==> r == WithoutHost(b, affected.value)
  {
    match affected
    case None => b
    case Some(h) => if MappedVolumes(b, h) == {} then WithoutHost(b, h) else b
  }

  /** `terminate_connection` as a function of the controller's state: the new
      state and the returned dictionary, or the exception raised. */
  function Terminate(b: Backend, volume: Volume, connector: Connector): (r: (Backend, Result<ConnectionInfo>))
    ensures r.1.Err? <==> HOST_KEY in connector && HostFromConnector(b, connector).None?
    ensures r.1.Err? ==> r == (b, Err(HostNotFound))
    ensures r.1.Ok? && HOST_KEY in connector ==> r.1.value == Info(DRIVER_VOLUME_TYPE, NoData)
    ensures HOST_KEY !in connector ==> r.1 == Ok(EmptyInfo)
  {
    if HOST_KEY in connector then
      match HostFromConnector(b, connector)
      case None => (b, Err(HostNotFound))
      case Some(h) =>
        var (b1, affected) := WithoutMapping(b, volume.name, Some(h));
        (Reclaim(b1, affected), Ok(Info(DRIVER_VOLUME_TYPE, NoData)))
    else
      var (b1, affected) := WithoutMapping(b, volume.name, None);
      (Reclaim(b1, affected), Ok(EmptyInfo))
  }

  /** What initialize_connection holds once the volume is mapped: the host,
      the LUN id, `chap_secret` and the volume's lsvdisk attributes. */
  datatype Attachment = Attachment(host: HostId, lun: nat, secret: Option<string>, attrs: Attributes)

  /** `initialize_connection` up to `map_vol_to_host`: resolve or create the
      host, negotiate CHAP, read the volume's attributes and map the volume.
      A failure raises with the changes made so far left in place. */
  function PrepareMapping(b: Backend, chapEnabled: bool, multihostmap: bool, volume: Volume,
                          connector: Connector, newSecret: string): (r: (Backend, Result<Attachment>))
    ensures INITIATOR_KEY !in connector ==> r == (b, Err(InvalidConnector(INITIATOR_KEY)))
    ensures r.1.Err? ==> (r.1.error == InvalidConnector(INITIATOR_KEY) || r.1.error == VolumeAttributesUnavailable
                          || r.1.error == MultiHostMapNotAllowed)
    ensures r.1.Err? && INITIATOR_KEY in connector ==> r.1.error != InvalidConnector(INITIATOR_KEY)
    ensures r.1.Ok? ==> (HostFromConnector(r.0, connector) == Some(r.1.value.host)
                         && r.0.mappings == b.mappings[(volume.name, r.1.value.host) := r.1.value.lun]
                         && r.1.value.secret == ChapSecret(r.0, r.1.value.host)
                         && (chapEnabled ==> r.1.value.secret.Some?)
                         && volume.name in b.vdisks && r.1.value.attrs == b.vdisks[volume.name]
                         && (HostFromConnector(b, connector).None? ==> r.0.hosts == b.hosts + {r.1.value.host}))
    ensures HostFromConnector(b, connector).Some? ==> r.0.hosts == b.hosts && r.0.hostByInitiator == b.hostByInitiator
    ensures r.1.Ok? && HostFromConnector(b, connector).None? ==>
              r.0.hostByInitiator == b.hostByInitiator[connector[INITIATOR_KEY] := r.1.value.host]
    ensures r.1.Ok? && HostFromConnector(b, connector).None? && b.Valid() ==> r.1.value.host !in b.hosts
    ensures r.1.Ok? && ChapSecret(b, r.1.value.host).Some? ==> r.1.value.secret == ChapSecret(b, r.1.value.host)
    ensures r.1.Ok? && ChapSecret(b, r.1.value.host).None? ==>
              r.1.value.secret == (if chapEnabled then Some(newSecret) else None)
    ensures r.1.Ok? ==> forall g :: g != r.1.value.host ==> ChapSecret(r.0, g) == ChapSecret(b, g)
    ensures forall g :: ChapSecret(b, g).Some? ==> ChapSecret(r.0, g) == ChapSecret(b, g)
    ensures forall g: HostId :: ChapSecret(r.0, g) != ChapSecret(b, g) ==> HostFromConnector(r.0, connector) == Some(g)
    ensures r.0.hosts == b.hosts
            || (HostFromConnector(b, connector).None? && HostFromConnector(r.0, connector).Some?
                && r.0.hosts == b.hosts + {HostFromConnector(r.0, connector).value})
    ensures r.0.hostByInitiator == b.hostByInitiator
            || (HostFromConnector(b, connector).None? && HostFromConnector(r.0, connector).Some?
                && r.0.hostByInitiator == b.hostByInitiator[connector[INITIATOR_KEY] := HostFromConnector(r.0, connector).value])
    ensures r.1.Err? ==> r.0.mappings == b.mappings && r.0.nextLun == b.nextLun
    ensures r.0.vdisks == b.vdisks
  {
    match ResolveHost(b, connector)
    case Err(e) => (b, Err(e))
    case Ok((b1, host)) =>
      var (b2, secret) := NegotiateChap(b1, host, chapEnabled, newSecret);
      match VdiskAttributes(b2, volume.name)
      case None => (b2, Err(VolumeAttributesUnavailable))
      case Some(attrs) =>
        match WithMapping(b2, volume.name, host, multihostmap)
        case Err(e) => (b2, Err(e))
        case Ok((b3, lun)) => (b3, Ok(Attachment(host, lun, secret, attrs)))
  }

  /** `initialize_connection` as a function of the controller's state and of
      the node table's values: the new state and the returned dictionary, or
      the exception raised. `protocol` is the volume type's protocol and
      `newSecret` the secret the controller would generate. */
  function Initialize(b: Backend, nodes: seq<Node>, chapEnabled: bool, multihostmap: bool,
                      volume: Volume, connector: Connector, protocol: string, newSecret: string)
    : (r: (Backend, Result<ConnectionInfo>))
    ensures INITIATOR_KEY !in connector ==> r == (b, Err(InvalidConnector(INITIATOR_KEY)))
    ensures r.1.Err? && INITIATOR_KEY in connector ==>
              (r.1.error == VolumeAttributesUnavailable || r.1.error == MultiHostMapNotAllowed
               || r.1.error == MissingVolumeAttribute || r.1.error == NoNodeInIOGroup || r.1.error == IndexError)
    ensures r.1.Ok? ==> r.1.value.Info? && r.1.value.driverVolumeType == DRIVER_VOLUME_TYPE && r.1.value.data.Props?
  {
    var (b3, m) := PrepareMapping(b, chapEnabled, multihostmap, volume, connector, newSecret);
    match m
    case Err(e) => (b3, Err(e))
    case Ok(a) => AfterMapping(b3, nodes, protocol, a.attrs, a.lun, a.secret, volume, connector)
  }

  /** The rest of `initialize_connection` once the volume is mapped with LUN
      id `lun`: read the two lsvdisk columns (no rollback when one is
      missing), then the selection and property block, whose failure rolls
      the mapping back with terminate_connection. */
  function AfterMapping(b: Backend, nodes: seq<Node>, protocol: string, attrs: Attributes, lun: nat,
                        secret: Option<string>, volume: Volume, connector: Connector)
    : (r: (Backend, Result<ConnectionInfo>))
    ensures PREFERRED_NODE_KEY !in attrs || IO_GROUP_KEY !in attrs ==> r == (b, Err(MissingVolumeAttribute))
    ensures PREFERRED_NODE_KEY in attrs && IO_GROUP_KEY in attrs ==>
              r.1 == match Connect(nodes, protocol, attrs[PREFERRED_NODE_KEY], attrs[IO_GROUP_KEY],
                                   lun, volume.id, secret, connector)
                     case Ok(props) => Ok(Info(DRIVER_VOLUME_TYPE, Props(props)))
                     case Err(e) => Err(e)
    ensures r.1.Ok? || r.1 == Err(MissingVolumeAttribute) ==> r.0 == b
    ensures r.1.Err? && r.1.error != MissingVolumeAttribute ==> r.0 == Terminate(b, volume, connector).0
    ensures r.1.Ok? ==> r.1.value.Info? && r.1.value.driverVolumeType == DRIVER_VOLUME_TYPE && r.1.value.data.Props?
  {
    if PREFERRED_NODE_KEY !in attrs || IO_GROUP_KEY !in attrs then (b, Err(MissingVolumeAttribute))
    else
      match Connect(nodes, protocol, attrs[PREFERRED_NODE_KEY], attrs[IO_GROUP_KEY],
                    lun, volume.id, secret, connector)
      case Ok(props) => (b, Ok(Info(DRIVER_VOLUME_TYPE, Props(props))))
      case Err(e) => (Terminate(b, volume, connector).0, Err(e))
  }

  lemma AnyCapableStep(t: Table, i: nat)
    requires i < |t|
    ensures AnyCapable(t[..i + 1]) == (AnyCapable(t[..i]) || IscsiCapable(t[i].1))
  {
    assert t[..i + 1][i] == t[i];
    assert forall j :: 0 <= j < i ==> t[..i + 1][j] == t[..i][j];
  }

  lemma NoProtocolKeysStep(t: Table, i: nat)
    requires i < |t|
    ensures NoProtocolKeys(t[..i + 1]) == NoProtocolKeys(t[..i]) + (if HasProtocols(t[i]) then [] else [t[i].0])
  {
    assert t[..i + 1][..i] == t[..i];
  }

  lemma DeleteNextKey(t: Table, ks: seq<string>, j: nat)
    requires j < |ks|
    ensures DeleteKey(WithoutKeys(t, ks[..j]), ks[j]) == WithoutKeys(t, ks[..j + 1])
  {
    DeleteKeyExtends(t, ks[..j], ks[j]);
    assert ks[..j + 1] == ks[..j] + [ks[j]];
  }

  /** Deleting every collected key from the tagged table leaves the pruned table. */
  lemma DeletionPrunes(inventory: Table, toDelete: seq<string>)
    requires UniqueKeys(inventory) && toDelete == NoProtocolKeys(TagAll(inventory))
    ensures WithoutKeys(TagAll(inventory), toDelete[..|toDelete|]) == Pruned(inventory)
  {
    assert toDelete[..|toDelete|] == toDelete;
    TagAllKeepsKeys(inventory);
    DeleteCollectedKeys(TagAll(inventory));
  }

  lemma WithoutNoKeys(t: Table)
    ensures WithoutKeys(t, []) == t
  {
    if t != [] {
      WithoutNoKeys(t[..|t| - 1]);
      assert t == t[..|t| - 1] + [t[|t| - 1]];
    }
  }

  class StorwizeSVCISCSIDriver {
    /** `self._state['storage_nodes']` */
    var storageNodes: Table
    /** `self._state['enabled_protocols']` */
    var enabledProtocols: set<string>
    /** `storwize_svc_iscsi_chap_enabled` */
    const chapEnabled: bool
    /** `storwize_svc_multihostmap_enabled` */
    const multihostmap: bool
    /** `self._helpers` */
    const helpers: StorageController

    constructor (helpers: StorageController, chapEnabled: bool, multihostmap: bool)
      ensures this.helpers == helpers && this.chapEnabled == chapEnabled && this.multihostmap == multihostmap
      ensures storageNodes == [] && enabledProtocols == {}
    {
      this.helpers := helpers;
      this.chapEnabled := chapEnabled;
      this.multihostmap := multihostmap;
      storageNodes := [];
      enabledProtocols := {};
    }

    /** The first loop of `do_setup`: tag every capable node with 'iSCSI'
        in place, record 'iSCSI' as a driver-wide protocol when some node is
        capable, and collect the keys of the nodes left without a protocol. */
    method TagNodes() returns (toDelete: seq<string>)
      modifies this`storageNodes, this`enabledProtocols
      ensures storageNodes == TagAll(old(storageNodes))
      ensures enabledProtocols == old(enabledProtocols) + (if AnyCapable(old(storageNodes)) then {ISCSI_PROTOCOL} else {})
      ensures toDelete == NoProtocolKeys(storageNodes)
    {
      ghost var nodes := storageNodes;
      toDelete := [];
      var i := 0;
      while i < |storageNodes|
        invariant 0 <= i <= |storageNodes| == |nodes|
        invariant forall j :: 0 <= j < i ==> storageNodes[j] == TagEntry(nodes[j])
        invariant forall j :: i <= j < |nodes| ==> storageNodes[j] == nodes[j]
        invariant toDelete == NoProtocolKeys(TagAll(nodes)[..i])
        invariant enabledProtocols == old(enabledProtocols) + (if AnyCapable(nodes[..i]) then {ISCSI_PROTOCOL} else {})
      {
        AnyCapableStep(nodes, i);
        NoProtocolKeysStep(TagAll(nodes), i);
        var (k, node) := storageNodes[i];
        if (|node.ipv4| > 0 || |node.ipv6| > 0) && |node.iscsiName| > 0 {
          node := node.(enabledProtocols := node.enabledProtocols + [ISCSI_PROTOCOL]);
          enabledProtocols := enabledProtocols + {ISCSI_PROTOCOL};
        }
        if |node.enabledProtocols| == 0 {
          toDelete := toDelete + [k];
        }
        storageNodes := storageNodes[i := (k, node)];
        i := i + 1;
      }
      assert storageNodes == TagAll(nodes);
      assert TagAll(nodes)[..i] == TagAll(nodes) && nodes[..i] == nodes;
    }

    /** The node part of `do_setup`, given the node table the helpers return
        (node info with the iSCSI IP addresses added): tag the nodes, delete
        the collected keys, and raise when no node remains. */
    method DoSetup(inventory: Table) returns (r: Result<()>)
      requires UniqueKeys(inventory)
      modifies this`storageNodes, this`enabledProtocols
      ensures storageNodes == Pruned(inventory)
      ensures enabledProtocols == old(enabledProtocols) + (if AnyCapable(inventory) then {ISCSI_PROTOCOL} else {})
      ensures r.Err? <==> storageNodes == []
      ensures r.Err? ==> r.error == NoConfiguredNodes
    {
      storageNodes := inventory;
      var toDelete := TagNodes();
      ghost var tagged := storageNodes;
      WithoutNoKeys(tagged);
      for j := 0 to |toDelete|
        invariant storageNodes == WithoutKeys(tagged, toDelete[..j])
        modifies this`storageNodes
      {
        DeleteNextKey(tagged, toDelete, j);
        storageNodes := DeleteKey(storageNodes, toDelete[j]);
      }
      DeletionPrunes(inventory, toDelete);
      if |storageNodes| == 0 {
        return Err(NoConfiguredNodes);
      }
      r := Ok(());
    }

    /** `initialize_connection`, up to the mapping of the volume; `protocol`
        is `vol_opts['protocol']` and `newSecret` the secret the controller
        generates if one is added. */
    method InitializeConnection(volume: Volume, connector: Connector, protocol: string, newSecret: string)
      returns (r: Result<ConnectionInfo>)
      modifies helpers
      ensures (helpers.State(), r) == Initialize(old(helpers.State()), Values(storageNodes), chapEnabled,
                                                 multihostmap, volume, connector, protocol, newSecret)
    {
      ghost var b0 := helpers.State();
      var volumeName := volume.name;
      var hostName: HostId;
      var found := helpers.GetHostFromConnector(connector);
      if found.None? {
        var created := helpers.CreateHost(connector);
        if created.Err? {
          return Err(created.error);
        }
        hostName := created.value;
      } else {
        hostName := found.value;
      }
      assert ResolveHost(b0, connector) == Ok((helpers.State(), hostName));
      ghost var b1 := helpers.State();

      var chapSecret := helpers.GetChapSecretForHost(hostName);
      if chapEnabled && chapSecret.None? {
        var added := helpers.AddChapSecretToHost(hostName, newSecret);
        chapSecret := Some(added);
      }
      assert NegotiateChap(b1, hostName, chapEnabled, newSecret) == (helpers.State(), chapSecret);

      var attributes := helpers.GetVdiskAttributes(volumeName);
      if attributes.None? {
        return Err(VolumeAttributesUnavailable);
      }

      var mapped := helpers.MapVolToHost(volumeName, hostName, multihostmap);
      if mapped.Err? {
        return Err(mapped.error);
      }
      assert PrepareMapping(b0, chapEnabled, multihostmap, volume, connector, newSecret)
          == (helpers.State(), Ok(Attachment(hostName, mapped.value, chapSecret, attributes.value)));
      r := FinishConnection(volume, connector, protocol, attributes.value, mapped.value, chapSecret);
    }

    /** The rest of `initialize_connection` once the volume is mapped with
        LUN id `lunId`: a missing lsvdisk column raises without rollback; a
        failure of the selection and property block first rolls the
        connection back with terminate_connection. */
    method FinishConnection(volume: Volume, connector: Connector, protocol: string, attributes: Attributes,
                            lunId: nat, chapSecret: Option<string>)
      returns (r: Result<ConnectionInfo>)
      modifies helpers
      ensures (helpers.State(), r) == AfterMapping(old(helpers.State()), Values(storageNodes), protocol,
                                                   attributes, lunId, chapSecret, volume, connector)
    {
      if PREFERRED_NODE_KEY !in attributes || IO_GROUP_KEY !in attributes {
        return Err(MissingVolumeAttribute);
      }
      var preferredNode := attributes[PREFERRED_NODE_KEY];
      var ioGroup := attributes[IO_GROUP_KEY];

      var selected := SelectServingNode(Values(storageNodes), protocol, preferredNode, ioGroup);
      var properties := if selected.Err? then Err(selected.error)
                        else BuildProperties(selected.value, lunId, volume.id, chapSecret, connector);
      if properties.Err? {
        // roll back before the exception propagates
        var _ := TerminateConnection(volume, connector);
        return Err(properties.error);
      }
      r := Ok(Info(DRIVER_VOLUME_TYPE, Props(properties.value)));
    }

    /** `terminate_connection`. */
    method TerminateConnection(volume: Volume, connector: Connector) returns (r: Result<ConnectionInfo>)
      modifies helpers
      ensures (helpers.State(), r) == Terminate(old(helpers.State()), volume, connector)
    {
      var volName := volume.name;
      var info := EmptyInfo;
      var hostName: Option<HostId>;
      if HOST_KEY in connector {
        info := Info(DRIVER_VOLUME_TYPE, NoData);
        hostName := helpers.GetHostFromConnector(connector);
        if hostName.None? {
          return Err(HostNotFound);
        }
      } else {
        hostName := None;
      }

      hostName := helpers.UnmapVolFromHost(volName, hostName);

      if hostName.Some? {
        var resp := helpers.CheckHostMappedVols(hostName.value);
        if |resp| == 0 {
          helpers.DeleteHost(hostName.value);
        }
      }
      r := Ok(info);
    }
  }
}
