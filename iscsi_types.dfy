/** Values shared by the Storwize/SVC iSCSI driver model: the storage-node
    records, the caller's connector, the volume, the exceptions the driver
    raises and the connection-information record it hands back. */
module IscsiTypes {

  datatype Option<T> = None | Some(value: T)

  /** A call either returns a value or raises one of the driver's exceptions. */
  datatype Result<T> = Ok(value: T) | Err(error: Error)

  /** The exceptions of the driver, one constructor per kind of raise site. */
  datatype Error =
    | NoConfiguredNodes                 // VolumeDriverException in do_setup: no node survives pruning
    | InvalidConnector(missing: string) // InvalidConnectorException: a connector key is missing
    | VolumeAttributesUnavailable       // VolumeDriverException: lsvdisk returned nothing
    | MissingVolumeAttribute            // VolumeBackendAPIException wrapping a KeyError on an lsvdisk column
    | NoNodeInIOGroup                   // VolumeBackendAPIException: no usable node in the volume's I/O group
    | IndexError                        // Python IndexError: the chosen node has no IPv4 and no IPv6 address
    | KeyError(key: string)             // Python KeyError on a connector key
    | HostNotFound                      // VolumeDriverException in terminate_connection
    | MultiHostMapNotAllowed            // raised by the mapping helper when the volume is mapped elsewhere

  /** The connector dictionary supplied by the compute host ('initiator', 'host', ...). */
  type Connector = map<string, string>

  /** The lsvdisk attribute dictionary of a volume ('preferred_node_id', 'IO_group_id', ...). */
  type Attributes = map<string, string>

  /** Host objects on the controller; their naming is not modelled, only their identity. */
  type HostId = nat

  /** The volume record the framework passes in (its 'id' and its 'name' on the controller). */
  datatype Volume = Volume(id: string, name: string)

  /** One storage node, as the node table holds it after the IP addresses are added. */
  datatype Node = Node(
    id: string,
    name: string,
    ipv4: seq<string>,
    ipv6: seq<string>,
    iscsiName: string,
    ioGroup: string,
    enabledProtocols: seq<string>)

  /** The six CHAP fields of the connection properties. */
  datatype ChapAuth = ChapAuth(
    authMethod: string,
    authUsername: string,
    authPassword: string,
    discoveryAuthMethod: string,
    discoveryAuthUsername: string,
    discoveryAuthPassword: string)

  /** The 'data' dictionary returned by initialize_connection; `auth` is None when
      none of the six CHAP keys is present. */
  datatype Properties = Properties(
    targetDiscovered: bool,
    targetLun: nat,
    volumeId: string,
    targetPortal: string,
    targetIqn: string,
    auth: Option<ChapAuth>)

  /** The 'data' entry of a connection-information dictionary: `{}` or the properties. */
  datatype ConnectionData = NoData | Props(properties: Properties)

  /** A connection-information dictionary: `{}` or `{'driver_volume_type': t, 'data': d}`. */
  datatype ConnectionInfo = EmptyInfo | Info(driverVolumeType: string, data: ConnectionData)

  const ISCSI_PROTOCOL := "iSCSI"
  const DRIVER_VOLUME_TYPE := "iscsi"
  const ISCSI_PORT := "3260"
  const CHAP_METHOD := "CHAP"
  const INITIATOR_KEY := "initiator"
  const HOST_KEY := "host"
  const PREFERRED_NODE_KEY := "preferred_node_id"
  const IO_GROUP_KEY := "IO_group_id"

  /** Python truthiness of an optional string: present and non-empty. */
  predicate Truthy(s: Option<string>) {
    s.Some? && s.value != ""
  }
}
