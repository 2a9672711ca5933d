# Storwize/SVC iSCSI volume driver — a verified model

This project models the iSCSI attach/detach core of the IBM Storwize/SVC
Cinder volume driver (`storwize_svc_iscsi.py`) in Dafny and proves what the
driver promises about it:

- **Setup pruning** (`do_setup`): each storage node that has an IPv4 or IPv6
  address and an iSCSI name is tagged with the `iSCSI` protocol. Nodes left
  with no protocol are deleted, and setup fails when none remain.
- **Connector validation** (`validate_connector`): the connector must carry an
  `initiator`.
- **Attach** (`initialize_connection`), in order:
  - find the host object for the connector, or create one;
  - apply the CHAP policy;
  - read the volume's lsvdisk attributes;
  - map the volume to the host;
  - pick the serving node;
  - assemble the connection properties;
  - if the node choice or property assembly fails, roll back with
    `terminate_connection`.
- **Detach** (`terminate_connection`): resolve the host only when the connector
  names one, unmap the volume, and delete the host once it has no mappings
  left.

The storage controller behind `self._helpers` is an abstract state
(`Controller.Backend`) holding:
- the hosts;
- the initiator-to-host lookup;
- the CHAP secrets;
- the volume-to-host mappings with their LUN ids;
- the volumes' lsvdisk attributes.

Each helper the driver calls is a function on that state (its assumed
contract) and a method of `Controller.StorageController` that performs it.

The driver (`IscsiDriver.StorwizeSVCISCSIDriver`) is a class with these
fields:
- the node table;
- the driver-wide protocol set;
- the two configuration flags;
- the controller.

Its methods follow the source step by step. Each is proved to compute a
function of the controller's state: `Initialize` (built from `PrepareMapping`
and `AfterMapping`) and `Terminate`. Module `IscsiProperties` proves the
driver's promises about those functions.

Files:
- `iscsi_types.dfy`: module `IscsiTypes` (nodes, connector, properties, errors, constants).
- `node_table.dfy`: module `NodeTable` (pruning, node selection, properties).
- `controller.dfy`: module `Controller` (the helper layer).
- `iscsi_driver.dfy`: module `IscsiDriver` (the driver class and the functions its methods compute).
- `iscsi_properties.dfy`: module `IscsiProperties` (the properties).

Behaviour of the code worth knowing, each proved in the model:
- **CHAP fields with CHAP disabled.** Line 224 attaches the six CHAP fields
  whenever the host's secret is truthy, also when CHAP is disabled
  (`IscsiProperties.AttachSucceeds`).
- **Detach without `'host'`.** For a connector without a `'host'` key,
  `terminate_connection` returns `{}` (lines 263, 291); with the key it
  returns the `iscsi` dictionary with empty data
  (`IscsiProperties.ExampleDetach`).
- **The rollback can leave a mapping behind.** Without a `'host'` key the
  rollback's `unmap_vol_from_host(vol, None)` (line 280) unmaps only a volume
  mapped to exactly one host. With multi-host mapping on and the volume
  already mapped to another host, a failed attach keeps its new host and the
  new mapping (`IscsiProperties.RollbackLeavesMapping`).
- **The rollback can remove an earlier mapping.** With a `'host'` key the
  rollback unmaps the volume from the connector's host even when that
  mapping existed before the call, so a failed re-attach detaches a volume
  that was attached (`IscsiProperties.TerminateAfterMapping`).

## Model

All source paths are in `cinder/volume/drivers/ibm/storwize_svc/`.

| member | source | states |
|---|---|---|
| IscsiDriver.ValidateConnector | cinder/volume/drivers/ibm/storwize_svc/storwize_svc_iscsi.py:128-134 | fails, with `InvalidConnector("initiator")`, exactly when the connector has no `initiator` key |
| NodeTable.NoProtocolKeys | cinder/volume/drivers/ibm/storwize_svc/storwize_svc_iscsi.py:112-116 | every key collected in `to_delete` is a key of the node table |
| NodeTable.DeleteKey | cinder/volume/drivers/ibm/storwize_svc/storwize_svc_iscsi.py:117-118 | `del` keeps exactly the entries whose key differs |
| NodeTable.KeepEnabled | cinder/volume/drivers/ibm/storwize_svc/storwize_svc_iscsi.py:112-118 | keeps exactly the entries with a non-empty protocol list, and is no longer than the table |
| NodeTable.Tag | cinder/volume/drivers/ibm/storwize_svc/storwize_svc_iscsi.py:107-111 | a capable node (an IPv4 or IPv6 address and a non-empty iSCSI name) gets `iSCSI` appended to its protocols; nothing else about the node changes |
| NodeTable.TagAll | cinder/volume/drivers/ibm/storwize_svc/storwize_svc_iscsi.py:106-111 | the first setup loop's effect on the table: every entry, in order and under its key, is tagged |
| NodeTable.WithoutKeys | cinder/volume/drivers/ibm/storwize_svc/storwize_svc_iscsi.py:117-118 | deleting a list of keys keeps exactly the entries whose key is not in the list |
| NodeTable.Pruned | cinder/volume/drivers/ibm/storwize_svc/storwize_svc_iscsi.py:104-118 | the table setup leaves holds exactly the tagged entries that have a protocol, in the tagged table's order |
| NodeTable.KeepEnabledKeepsOrder | cinder/volume/drivers/ibm/storwize_svc/storwize_svc_iscsi.py:117-118 | pruning keeps the surviving entries in table order |
| NodeTable.DeleteCollectedKeys | cinder/volume/drivers/ibm/storwize_svc/storwize_svc_iscsi.py:106-118 | with distinct dictionary keys, deleting the collected keys one by one leaves exactly the entries that have a protocol |
| NodeTable.PrunedMembership | cinder/volume/drivers/ibm/storwize_svc/storwize_svc_iscsi.py:104-118 | every node left after setup has a protocol; a node that has one after tagging is never removed; every node left is a tagged input node |
| NodeTable.PrunedNodesServable | cinder/volume/drivers/ibm/storwize_svc/storwize_svc_iscsi.py:106-118 | when the inventory comes with no protocol enabled, every node left has protocols `['iSCSI']`, a non-empty iSCSI name and an address a portal can be built from |
| IscsiDriver.StorwizeSVCISCSIDriver.TagNodes | cinder/volume/drivers/ibm/storwize_svc/storwize_svc_iscsi.py:106-116 | the first setup loop tags every capable node in place, adds `iSCSI` to the driver-wide set exactly when some node is capable, and returns the keys of the nodes left without a protocol |
| IscsiDriver.StorwizeSVCISCSIDriver.DoSetup | cinder/volume/drivers/ibm/storwize_svc/storwize_svc_iscsi.py:104-124 | the node table becomes the pruned table and the protocol set gains `iSCSI` exactly when some node is capable; setup fails with `NoConfiguredNodes` exactly when no node remains |
| IscsiDriver.DeletionPrunes | cinder/volume/drivers/ibm/storwize_svc/storwize_svc_iscsi.py:117-118 | the deletion loop turns the tagged table into the pruned table |
| NodeTable.IOGroupNodes | cinder/volume/drivers/ibm/storwize_svc/storwize_svc_iscsi.py:192-198 | `io_group_nodes` holds exactly the protocol-enabled nodes of the volume's I/O group |
| NodeTable.PreferredEntry | cinder/volume/drivers/ibm/storwize_svc/storwize_svc_iscsi.py:192-196 | `preferred_node_entry` is a protocol-enabled node with the preferred id, and is absent exactly when there is no such node |
| NodeTable.PreferredIsLast | cinder/volume/drivers/ibm/storwize_svc/storwize_svc_iscsi.py:192-196 | `preferred_node_entry` is overwritten on each match, so the chosen preferred node has no preferred node after it in the table |
| NodeTable.FirstCandidate | cinder/volume/drivers/ibm/storwize_svc/storwize_svc_iscsi.py:207-209 | the fallback `io_group_nodes[0]` is the first node of the I/O group in table order |
| NodeTable.SelectNode | cinder/volume/drivers/ibm/storwize_svc/storwize_svc_iscsi.py:189-211 | fails with `NoNodeInIOGroup` exactly when the I/O group has no protocol-enabled node, even if the preferred node exists; otherwise it returns a protocol-enabled node of the table: the preferred node when there is one (in any I/O group), else the group's first node |
| NodeTable.PreferredMayLeaveIOGroup | cinder/volume/drivers/ibm/storwize_svc/storwize_svc_iscsi.py:195-196 | a preferred node outside the volume's I/O group is chosen over the group's own node |
| NodeTable.SelectServingNode | cinder/volume/drivers/ibm/storwize_svc/storwize_svc_iscsi.py:188-211 | the selection loop computes the selection rule |
| NodeTable.Portal | cinder/volume/drivers/ibm/storwize_svc/storwize_svc_iscsi.py:218-222 | the portal is the first IPv4 address, else the first IPv6 address, followed by `:3260`; `IndexError` exactly when the node has neither |
| NodeTable.BuildProperties | cinder/volume/drivers/ibm/storwize_svc/storwize_svc_iscsi.py:213-231 | `target_discovered` is false; `target_lun`, `volume_id`, `target_iqn` and `target_portal` come from their sources; the six CHAP fields are present exactly when the secret is truthy and carry `CHAP`, the initiator and the secret; it fails with `IndexError` when there is no address and with `KeyError` exactly when a truthy secret meets a connector without initiator |
| NodeTable.Connect | cinder/volume/drivers/ibm/storwize_svc/storwize_svc_iscsi.py:188-231 | the try block fails with `NoNodeInIOGroup`, `IndexError` or (without initiator) `KeyError`; on success the target name and portal come from a protocol-enabled node |
| Controller.HostFromConnector | cinder/volume/drivers/ibm/storwize_svc/storwize_svc_iscsi.py:155 | assumed `get_host_from_connector`: a host is found only for a connector with an initiator, and under the controller invariant it is an existing host |
| Controller.WithNewHost | cinder/volume/drivers/ibm/storwize_svc/storwize_svc_iscsi.py:156-158 | assumed `create_host`: fails exactly without an initiator; otherwise it adds one host (new, under the controller invariant, which it keeps) and registers the initiator for it, and nothing else changes |
| Controller.ChapSecret | cinder/volume/drivers/ibm/storwize_svc/storwize_svc_iscsi.py:160 | assumed `get_chap_secret_for_host`: the host's secret, absent exactly when it has none |
| Controller.WithChapSecret | cinder/volume/drivers/ibm/storwize_svc/storwize_svc_iscsi.py:162-163 | assumed `add_chap_secret_to_host`: the host gets the secret, and no other host's secret and nothing else changes |
| Controller.VdiskAttributes | cinder/volume/drivers/ibm/storwize_svc/storwize_svc_iscsi.py:168 | assumed `get_vdisk_attributes`: absent exactly for an unknown volume |
| Controller.WithMapping | cinder/volume/drivers/ibm/storwize_svc/storwize_svc_iscsi.py:175-177 | assumed `map_vol_to_host`: reuses an existing mapping unchanged; refuses exactly when the volume is mapped elsewhere and multi-host mapping is off; otherwise it adds the one pair with its LUN id |
| Controller.WithoutMapping | cinder/volume/drivers/ibm/storwize_svc/storwize_svc_iscsi.py:279-280 | assumed `unmap_vol_from_host`: with a host, it unmaps exactly when that pair is mapped; with none, it unmaps exactly when the volume has one host; it returns the host affected |
| Controller.WithoutHost | cinder/volume/drivers/ibm/storwize_svc/storwize_svc_iscsi.py:285-286 | assumed `delete_host`: the host, its secret and its lookup entries go, and nothing else |
| Controller.StorageController.GetHostFromConnector | cinder/volume/drivers/ibm/storwize_svc/storwize_svc_iscsi.py:155 | returns the lookup of the current state |
| Controller.StorageController.CreateHost | cinder/volume/drivers/ibm/storwize_svc/storwize_svc_iscsi.py:158 | performs `WithNewHost`, or changes nothing and fails |
| Controller.StorageController.GetChapSecretForHost | cinder/volume/drivers/ibm/storwize_svc/storwize_svc_iscsi.py:160 | returns the host's secret in the current state |
| Controller.StorageController.AddChapSecretToHost | cinder/volume/drivers/ibm/storwize_svc/storwize_svc_iscsi.py:163 | performs `WithChapSecret` and returns the secret |
| Controller.StorageController.GetVdiskAttributes | cinder/volume/drivers/ibm/storwize_svc/storwize_svc_iscsi.py:168 | returns the volume's attributes in the current state |
| Controller.StorageController.MapVolToHost | cinder/volume/drivers/ibm/storwize_svc/storwize_svc_iscsi.py:176-177 | performs `WithMapping` and returns the LUN id, or changes nothing and fails |
| Controller.StorageController.UnmapVolFromHost | cinder/volume/drivers/ibm/storwize_svc/storwize_svc_iscsi.py:280 | performs `WithoutMapping` |
| Controller.StorageController.CheckHostMappedVols | cinder/volume/drivers/ibm/storwize_svc/storwize_svc_iscsi.py:284 | returns the volumes mapped to the host |
| Controller.StorageController.DeleteHost | cinder/volume/drivers/ibm/storwize_svc/storwize_svc_iscsi.py:286 | performs `WithoutHost` |
| IscsiDriver.ResolveHost | cinder/volume/drivers/ibm/storwize_svc/storwize_svc_iscsi.py:154-158 | an existing host is reused with nothing changed; `create_host` is used only when the lookup finds none |
| IscsiDriver.NegotiateChap | cinder/volume/drivers/ibm/storwize_svc/storwize_svc_iscsi.py:160-166 | a secret is added only when CHAP is enabled and the host has none; otherwise the state is unchanged and the existing secret (possibly none) is used |
| IscsiDriver.Reclaim | cinder/volume/drivers/ibm/storwize_svc/storwize_svc_iscsi.py:282-286 | the host the unmap affected is deleted exactly when it has no mapped volume left |
| IscsiDriver.Terminate | cinder/volume/drivers/ibm/storwize_svc/storwize_svc_iscsi.py:262-291 | fails with `HostNotFound`, changing nothing, exactly when the connector has `'host'` and its host cannot be found; otherwise it returns the iSCSI dictionary with empty data when `'host'` is present and `{}` when it is not |
| IscsiDriver.PrepareMapping | cinder/volume/drivers/ibm/storwize_svc/storwize_svc_iscsi.py:151-177 | See the note after the table. |
| IscsiDriver.AfterMapping | cinder/volume/drivers/ibm/storwize_svc/storwize_svc_iscsi.py:178-247 | a missing lsvdisk column raises `MissingVolumeAttribute` with no rollback; otherwise the result is the try block's: its properties wrapped in the `iscsi` dictionary, or its own exception re-raised after the rollback, with the state `terminate_connection` leaves |
| IscsiDriver.Initialize | cinder/volume/drivers/ibm/storwize_svc/storwize_svc_iscsi.py:136-247 | without an initiator the attach fails first with nothing changed; with one, it raises only `VolumeAttributesUnavailable`, `MultiHostMapNotAllowed`, `MissingVolumeAttribute`, `NoNodeInIOGroup` or `IndexError`; a success is the `iscsi` dictionary with properties |
| IscsiDriver.StorwizeSVCISCSIDriver.InitializeConnection | cinder/volume/drivers/ibm/storwize_svc/storwize_svc_iscsi.py:136-177 | the attach sequence computes `Initialize`: the new controller state and the returned dictionary or exception |
| IscsiDriver.StorwizeSVCISCSIDriver.FinishConnection | cinder/volume/drivers/ibm/storwize_svc/storwize_svc_iscsi.py:178-247 | the column check, selection, properties and rollback compute `AfterMapping` |
| IscsiDriver.StorwizeSVCISCSIDriver.TerminateConnection | cinder/volume/drivers/ibm/storwize_svc/storwize_svc_iscsi.py:249-291 | the detach sequence computes `Terminate` |
| IscsiProperties.ConnectorErrorsIffInvalid | cinder/volume/drivers/ibm/storwize_svc/storwize_svc_iscsi.py:130-134 | the attach fails for a missing connector key exactly when `validate_connector` rejects the connector, and then it fails first with nothing changed |
| IscsiProperties.ResolveHostIdempotent | cinder/volume/drivers/ibm/storwize_svc/storwize_svc_iscsi.py:155-158 | resolving twice gives the same host and creates nothing the second time; the first resolution creates at most one host, and none for a registered initiator |
| IscsiProperties.AttachSucceeds | cinder/volume/drivers/ibm/storwize_svc/storwize_svc_iscsi.py:213-247 | See the note after the table. |
| IscsiProperties.ReattachIsStable | cinder/volume/drivers/ibm/storwize_svc/storwize_svc_iscsi.py:155-177 | attaching again after a success changes nothing and returns the same connection, whatever secret would be generated |
| IscsiProperties.AttributesUnavailableMapsNothing | cinder/volume/drivers/ibm/storwize_svc/storwize_svc_iscsi.py:168-177 | an unknown volume fails with `VolumeAttributesUnavailable` before any mapping (the mapping table and LUN counter are untouched), while a host created on the way stays |
| IscsiProperties.MissingColumnKeepsMapping | cinder/volume/drivers/ibm/storwize_svc/storwize_svc_iscsi.py:176-186 | `MissingVolumeAttribute` arises only for a known volume lacking a column, and the mapping just made stays in place |
| IscsiProperties.RollbackState | cinder/volume/drivers/ibm/storwize_svc/storwize_svc_iscsi.py:233-240 | a failure after the mapping, other than a missing column, is the try block's own exception (`NoNodeInIOGroup` or `IndexError`) re-raised, and the state is what `terminate_connection` leaves |
| IscsiProperties.TryBlockErrorPropagates | cinder/volume/drivers/ibm/storwize_svc/storwize_svc_iscsi.py:233-240 | once mapped, a volume whose I/O group has no protocol-enabled node raises `NoNodeInIOGroup`, and a chosen node with no address raises `IndexError`, each after the rollback |
| IscsiProperties.TerminateAfterMapping | cinder/volume/drivers/ibm/storwize_svc/storwize_svc_iscsi.py:262-286 | the rollback's `terminate_connection` succeeds; with `'host'` it removes exactly the pair just mapped, even if that mapping predates the call; without it, a volume mapped nowhere before is mapped nowhere again |
| IscsiProperties.UnmapFreshPair | cinder/volume/drivers/ibm/storwize_svc/storwize_svc_iscsi.py:279-280 | after a fresh host's mapping, the unmap removes that pair and leaves the host without mappings |
| IscsiProperties.FreshHostRemoved | cinder/volume/drivers/ibm/storwize_svc/storwize_svc_iscsi.py:285-286 | deleting a fresh, unmapped host restores the controller apart from the id counters |
| IscsiProperties.TerminateForgetsFreshHost | cinder/volume/drivers/ibm/storwize_svc/storwize_svc_iscsi.py:262-286 | terminate right after mapping a volume to a fresh host deletes that host and restores the controller apart from the id counters |
| IscsiProperties.RollbackForgetsNewHost | cinder/volume/drivers/ibm/storwize_svc/storwize_svc_iscsi.py:233-240 | a failed attach that created its host, rolled back with `'host'` or for a volume mapped nowhere before, leaves the controller as it found it apart from the id counters |
| IscsiProperties.RollbackLeavesMapping | cinder/volume/drivers/ibm/storwize_svc/storwize_svc_iscsi.py:233-240 | counterexample: without `'host'`, with multi-host mapping on and the volume already mapped to another host, a failed attach raises `NoNodeInIOGroup` and keeps its new host and mapping |
| IscsiProperties.DetachWithHostKey | cinder/volume/drivers/ibm/storwize_svc/storwize_svc_iscsi.py:264-286 | with `'host'`, detach unmaps exactly the connector's host's pair; only that host may go, and it goes exactly when this volume was its last mapping |
| IscsiProperties.DetachWithoutHostKey | cinder/volume/drivers/ibm/storwize_svc/storwize_svc_iscsi.py:275-286 | without `'host'`, detach changes nothing unless the volume has exactly one host; then it unmaps that pair and deletes the host exactly when this volume was its last mapping |
| IscsiProperties.ReclaimedHostIsForgotten | cinder/volume/drivers/ibm/storwize_svc/storwize_svc_iscsi.py:269-286 | once detach deletes the connector's host, its initiator is no longer registered, so a second detach with `'host'` fails with `HostNotFound` |
| IscsiProperties.WithMappingValid | cinder/volume/drivers/ibm/storwize_svc/storwize_svc_iscsi.py:176-177 | mapping to a live host keeps the controller invariant |
| IscsiProperties.WithoutMappingValid | cinder/volume/drivers/ibm/storwize_svc/storwize_svc_iscsi.py:280 | unmapping keeps the controller invariant and reports a live host |
| IscsiProperties.ReclaimValid | cinder/volume/drivers/ibm/storwize_svc/storwize_svc_iscsi.py:283-286 | deleting a host with no mappings keeps the controller invariant |
| IscsiProperties.TerminateValid | cinder/volume/drivers/ibm/storwize_svc/storwize_svc_iscsi.py:262-291 | detach keeps the controller invariant |
| IscsiProperties.PrepareMappingValid | cinder/volume/drivers/ibm/storwize_svc/storwize_svc_iscsi.py:154-177 | the steps up to the mapping keep the controller invariant |
| IscsiProperties.InitializeValid | cinder/volume/drivers/ibm/storwize_svc/storwize_svc_iscsi.py:136-247 | attach keeps the controller invariant on every outcome, including the rollback |
| IscsiProperties.ConnectOnPrunedTable | cinder/volume/drivers/ibm/storwize_svc/storwize_svc_iscsi.py:218-221 | when every inventory node arrives with no protocol enabled, the try block over the table setup left never fails with `IndexError` |
| IscsiProperties.AttachAfterSetupNoIndexError | cinder/volume/drivers/ibm/storwize_svc/storwize_svc_iscsi.py:218-221 | when every inventory node arrives with no protocol enabled, an attach over the table setup left never fails with `IndexError` |
| IscsiProperties.ExampleMapping | cinder/volume/drivers/ibm/storwize_svc/storwize_svc_iscsi.py:154-177 | worked example: a new initiator with CHAP enabled gets a host with the generated secret, and the volume becomes LUN 0 |
| IscsiProperties.ExampleConnect | cinder/volume/drivers/ibm/storwize_svc/storwize_svc_iscsi.py:188-231 | worked example: the preferred node yields portal `10.0.0.5:3260`, its target name and the CHAP fields |
| IscsiProperties.ExampleAttach | cinder/volume/drivers/ibm/storwize_svc/storwize_svc_iscsi.py:136-247 | worked example: the whole attach returns that connection |
| IscsiProperties.ExampleDetach | cinder/volume/drivers/ibm/storwize_svc/storwize_svc_iscsi.py:249-291 | worked example: detach returns `{}` without `'host'` and the iSCSI dictionary with empty data with it; either way it unmaps the volume and deletes the host |

Two rows need longer descriptions:

- **`IscsiDriver.PrepareMapping`.** Without an initiator it fails first, with
  nothing changed. Its only failures are `InvalidConnector`,
  `VolumeAttributesUnavailable` and `MultiHostMapNotAllowed`. On success:
  - the connector's initiator resolves to the chosen host;
  - the mapping table is the old one plus exactly that pair with its LUN id;
  - the secret handed on is the host's secret;
  - with CHAP enabled, a secret is always present.

  On every outcome:
  - an existing secret is kept, and no secret is removed;
  - on success, a host without a secret gets the new secret exactly when CHAP is enabled;
  - only the secret of the host the connector resolves to can change;
  - hosts and initiator lookups change only by the one created host, registered for the connector's initiator;
  - a failure leaves the mapping table and the LUN counter unchanged;
  - volume attributes never change.
- **`IscsiProperties.AttachSucceeds`.** A success returns the `iscsi`
  dictionary with properties. The connector's initiator resolves to a host,
  and the mapping table is the old one plus exactly that host's pair, with the
  returned LUN id. The volume id and `target_discovered = False` are set. The
  CHAP fields are present exactly when the host's secret is truthy, even with
  CHAP disabled, and they carry `CHAP`, the initiator and that secret. With
  CHAP enabled the host has a secret. The target name and portal are those of
  the node that the selection rule picks for the volume's attributes.

## Left out

- The cross-process lock `@utils.synchronized('storwize-host', external=True)` (lines 136, 249). It is concurrency. Each public operation is one atomic sequential method, and the rollback's re-entry into the lock is not modelled.
- The plugin shell is not modelled: `__init__`, option registration, `VERSION`, `self.protocol`, the `super().do_setup` call, logging and message translation.
- The helper layer (`storwize_svc_common`) is not part of this model. It is SSH/CLI plumbing. Each helper is replaced by an assumed contract on the abstract controller state:
  - host lookup is keyed by the connector's `initiator`;
  - `create_host` fails without an initiator;
  - `map_vol_to_host` reuses an existing pair and refuses a volume mapped elsewhere when multi-host mapping is off;
  - `unmap_vol_from_host` without a host unmaps only a volume mapped to exactly one host;
  - host naming and CLI parsing are not modelled: hosts are ids from a counter.
- Backend communication failures of the helpers (CLI errors) are left out; the helpers above fail only in the ways listed.
- `get_node_info` and `add_iscsi_ip_addrs` (lines 99-102) are not modelled. `DoSetup` takes the node table they produce as a parameter. The table is a list of (key, node) pairs in dictionary iteration order, with distinct keys.
- ConnectOnPrunedTable and AttachAfterSetupNoIndexError assume that `get_node_info` returns every node with an empty `enabled_protocols` list; a node arriving with a protocol but no address could still raise `IndexError`.
- DoSetup: the node records are values. Appending `iSCSI` in place replaces the table entry, so aliasing of a node dictionary shared with other holders is not captured.
- `_get_vdisk_params` (line 151) is not modelled; the volume type's protocol is an input string.
- A rollback whose `terminate_connection` itself raises is not modelled, because that behaviour is defined by `excutils.save_and_reraise_exception`. In the model, the rollback's `terminate_connection` always succeeds (`IscsiProperties.TerminateAfterMapping`).
- CHAP secret generation and LUN-id allocation are opaque:
  - the generated secret is a parameter;
  - LUN ids come from a counter in the controller state.
- The check `if host_name:` (line 283) treats every host the unmap returns as truthy, since the source's host names are non-empty strings.
- RollbackForgetsNewHost: restoration is proved only with a `'host'` key or for a volume mapped nowhere before; in the remaining case the code's rollback leaves the new host and mapping (`IscsiProperties.RollbackLeavesMapping`).
- Exception classes and messages are reduced to the constructors of `IscsiTypes.Error`, one per raise site.
