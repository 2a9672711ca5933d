/** The storage controller as the driver sees it through its helper layer:
    host objects, the initiator-to-host lookup, CHAP secrets, volume-to-host
    mappings with their LUN ids, and the volumes' lsvdisk attributes. Each
    helper the driver calls is a function on the controller's state (its
    assumed contract) and a method of StorageController that performs it. */
module Controller {
  import opened IscsiTypes

  datatype Backend = Backend(
    hosts: set<HostId>,
    hostByInitiator: map<string, HostId>,
    chapSecrets: map<HostId, string>,
    mappings: map<(string, HostId), nat>,
    vdisks: map<string, Attributes>,
    nextHost: nat,
    nextLun: nat)
  {
    /** Host ids come from a counter, every lookup entry, secret and mapping
        refers to an existing host, and LUN ids are distinct per host. */
    predicate Valid() {
      && (forall h :: h in hosts ==> h < nextHost)
      && (forall i :: i in hostByInitiator ==> hostByInitiator[i] in hosts)
      && (forall h :: h in chapSecrets ==> h in hosts)
      && (forall k :: k in mappings ==> k.1 in hosts && mappings[k] < nextLun)
      && (forall k1, k2 :: k1 in mappings && k2 in mappings && k1 != k2 && k1.1 == k2.1 ==>
            mappings[k1] != mappings[k2])
    }
  }

  /** The hosts a volume is mapped to. */
  function MappedHosts(b: Backend, vol: string): set<HostId> {
    set k | k in b.mappings && k.0 == vol :: k.1
  }

  /** `check_host_mapped_vols`: the volumes mapped to a host. */
  function MappedVolumes(b: Backend, h: HostId): set<string> {
    set k | k in b.mappings && k.1 == h :: k.0
  }

  /** `get_host_from_connector`: the host registered for the connector's initiator. */
  function HostFromConnector(b: Backend, c: Connector): (r: Option<HostId>)
    ensures r.Some? ==> INITIATOR_KEY in c
    ensures b.Valid() && r.Some? ==> r.value in b.hosts
  {
    if INITIATOR_KEY in c && c[INITIATOR_KEY] in b.hostByInitiator then Some(b.hostByInitiator[c[INITIATOR_KEY]])
    else None
  }

  /** `create_host`: a new host object registered for the connector's initiator;
      a connector without an initiator cannot be turned into a host. */
  function WithNewHost(b: Backend, c: Connector): (r: Result<(Backend, HostId)>)
    ensures r.Err? <==> INITIATOR_KEY !in c
    ensures r.Err? ==> r.error == InvalidConnector(INITIATOR_KEY)
    ensures r.Ok? ==> HostFromConnector(r.value.0, c) == Some(r.value.1)
    ensures r.Ok? ==> r.value.0.hosts == b.hosts + {r.value.1}
    ensures r.Ok? && b.Valid() ==> r.value.1 !in b.hosts && r.value.0.Valid()
    ensures r.Ok? ==> r.value.0 == b.(hosts := r.value.0.hosts, hostByInitiator := r.value.0.hostByInitiator,
                                      nextHost := r.value.0.nextHost)
  {
    if INITIATOR_KEY !in c then Err(InvalidConnector(INITIATOR_KEY))
    else
      var h := b.nextHost;
      Ok((b.(hosts := b.hosts + {h},
             hostByInitiator := b.hostByInitiator[c[INITIATOR_KEY] := h],
             nextHost := h + 1), h))
  }

  /** `get_chap_secret_for_host`. */
  function ChapSecret(b: Backend, h: HostId): (r: Option<string>)
    ensures r.Some? <==> h in b.chapSecrets
    ensures r.Some? ==> r.value == b.chapSecrets[h]
  {
    if h in b.chapSecrets then Some(b.chapSecrets[h]) else None
  }

  /** `add_chap_secret_to_host`, with the generated secret supplied by the caller. */
  function WithChapSecret(b: Backend, h: HostId, secret: string): (r: Backend)
    ensures ChapSecret(r, h) == Some(secret)
    ensures r == b.(chapSecrets := r.chapSecrets)
    ensures forall g :: g != h ==> ChapSecret(r, g) == ChapSecret(b, g)
  {
    b.(chapSecrets := b.chapSecrets[h := secret])
  }

  /** `get_vdisk_attributes`: None when the volume is unknown. */
  function VdiskAttributes(b: Backend, vol: string): (r: Option<Attributes>)
    ensures r.Some? <==> vol in b.vdisks
  {
    if vol in b.vdisks then Some(b.vdisks[vol]) else None
  }

  /** `map_vol_to_host`: reuse the mapping of the volume to this host, or
      create one with a fresh LUN id; refused when the volume is mapped to
      another host and multi-host mapping is off. */
  function WithMapping(b: Backend, vol: string, h: HostId, multihostmap: bool): (r: Result<(Backend, nat)>)
    ensures r.Err? <==> (vol, h) !in b.mappings && !multihostmap && MappedHosts(b, vol) != {}
    ensures r.Err? ==> r.error == MultiHostMapNotAllowed
    ensures r.Ok? ==> (vol, h) in r.value.0.mappings && r.value.0.mappings[(vol, h)] == r.value.1
    ensures r.Ok? && (vol, h) in b.mappings ==> r.value.0 == b
    ensures r.Ok? ==> r.value.0.mappings == b.mappings[(vol, h) := r.value.1]
    ensures r.Ok? ==> r.value.0 == b.(mappings := r.value.0.mappings, nextLun := r.value.0.nextLun)
  {
    if (vol, h) in b.mappings then Ok((b, b.mappings[(vol, h)]))
    else if !multihostmap && MappedHosts(b, vol) != {} then Err(MultiHostMapNotAllowed)
    else
      var lun := b.nextLun;
      Ok((b.(mappings := b.mappings[(vol, h) := lun], nextLun := lun + 1), lun))
  }

  lemma SingletonMember(hs: set<HostId>)
    requires |hs| == 1
    ensures exists x :: hs == {x}
  {
    var x :| x in hs;
    assert |hs - {x}| == 0;
  }

  /** `unmap_vol_from_host`: remove the mapping of the volume to the given
      host, or, when no host is given, to the only host it is mapped to;
      returns the host affected, None when nothing was unmapped. */
  function WithoutMapping(b: Backend, vol: string, h: Option<HostId>): (r: (Backend, Option<HostId>))
    ensures r.1.None? ==> r.0 == b
    ensures r.1.Some? ==> ((vol, r.1.value) in b.mappings
                           && r.0 == b.(mappings := b.mappings - {(vol, r.1.value)}))
    ensures h.Some? ==> (r.1.Some? <==> (vol, h.value) in b.mappings)
    ensures h.Some? && r.1.Some? ==> r.1 == h
    ensures h.None? ==> (r.1.Some? <==> |MappedHosts(b, vol)| == 1)
  {
    match h
    case Some(host) =>
      if (vol, host) in b.mappings then (b.(mappings := b.mappings - {(vol, host)}), Some(host))
      else (b, None)
    case None =>
      var hs := MappedHosts(b, vol);
      if |hs| == 1 then
        SingletonMember(hs);
        var host :| host in hs;
        (b.(mappings := b.mappings - {(vol, host)}), Some(host))
      else (b, None)
  }

  /** `delete_host`: the host object, its CHAP secret and its lookup entries go. */
  function WithoutHost(b: Backend, h: HostId): (r: Backend)
    ensures r.hosts == b.hosts - {h} && r.chapSecrets == b.chapSecrets - {h}
    ensures forall i :: i in r.hostByInitiator <==> i in b.hostByInitiator && b.hostByInitiator[i] != h
    ensures r == b.(hosts := r.hosts, hostByInitiator := r.hostByInitiator, chapSecrets := r.chapSecrets)
  {
    b.(hosts := b.hosts - {h},
       hostByInitiator := map i | i in b.hostByInitiator && b.hostByInitiator[i] != h :: b.hostByInitiator[i],
       chapSecrets := b.chapSecrets - {h})
  }

  /** The controller object behind `self._helpers`. */
  class StorageController {
    var hosts: set<HostId>
    var hostByInitiator: map<string, HostId>
    var chapSecrets: map<HostId, string>
    var mappings: map<(string, HostId), nat>
    var vdisks: map<string, Attributes>
    var nextHost: nat
    var nextLun: nat

    function State(): Backend
      reads this
    {
      Backend(hosts, hostByInitiator, chapSecrets, mappings, vdisks, nextHost, nextLun)
    }

    constructor (b: Backend)
      ensures State() == b
    {
      hosts, hostByInitiator, chapSecrets := b.hosts, b.hostByInitiator, b.chapSecrets;
      mappings, vdisks, nextHost, nextLun := b.mappings, b.vdisks, b.nextHost, b.nextLun;
    }

    method GetHostFromConnector(c: Connector) returns (h: Option<HostId>)
      ensures h == HostFromConnector(State(), c)
    {
      if INITIATOR_KEY in c && c[INITIATOR_KEY] in hostByInitiator {
        h := Some(hostByInitiator[c[INITIATOR_KEY]]);
      } else {
        h := None;
      }
    }

    method CreateHost(c: Connector) returns (r: Result<HostId>)
      modifies this
      ensures match WithNewHost(old(State()), c)
              case Ok((b, h)) => r == Ok(h) && State() == b
              case Err(e) => r == Err(e) && State() == old(State())
    {
      if INITIATOR_KEY !in c {
        return Err(InvalidConnector(INITIATOR_KEY));
      }
      var h := nextHost;
      hosts := hosts + {h};
      hostByInitiator := hostByInitiator[c[INITIATOR_KEY] := h];
      nextHost := h + 1;
      r := Ok(h);
    }

    method GetChapSecretForHost(h: HostId) returns (s: Option<string>)
      ensures s == ChapSecret(State(), h)
    {
      s := if h in chapSecrets then Some(chapSecrets[h]) else None;
    }

    method AddChapSecretToHost(h: HostId, secret: string) returns (s: string)
      modifies this
      ensures s == secret && State() == WithChapSecret(old(State()), h, secret)
    {
      chapSecrets := chapSecrets[h := secret];
      s := secret;
    }

    method GetVdiskAttributes(vol: string) returns (a: Option<Attributes>)
      ensures a == VdiskAttributes(State(), vol)
    {
      a := if vol in vdisks then Some(vdisks[vol]) else None;
    }

    method MapVolToHost(vol: string, h: HostId, multihostmap: bool) returns (r: Result<nat>)
      modifies this
      ensures match WithMapping(old(State()), vol, h, multihostmap)
              case Ok((b, lun)) => r == Ok(lun) && State() == b
              case Err(e) => r == Err(e) && State() == old(State())
    {
      if (vol, h) in mappings {
        return Ok(mappings[(vol, h)]);
      }
      var mapped := set k | k in mappings && k.0 == vol :: k.1;
      if !multihostmap && mapped != {} {
        return Err(MultiHostMapNotAllowed);
      }
      var lun := nextLun;
      mappings := mappings[(vol, h) := lun];
      nextLun := lun + 1;
      r := Ok(lun);
    }

    method UnmapVolFromHost(vol: string, h: Option<HostId>) returns (affected: Option<HostId>)
      modifies this
      ensures (State(), affected) == WithoutMapping(old(State()), vol, h)
    {
      var host: HostId;
      if h.Some? {
        host := h.value;
        if (vol, host) !in mappings {
          return None;
        }
      } else {
        var mapped := set k | k in mappings && k.0 == vol :: k.1;
        if |mapped| != 1 {
          return None;
        }
        SingletonMember(mapped);
        host :| host in mapped;
      }
      mappings := mappings - {(vol, host)};
      affected := Some(host);
    }

    method CheckHostMappedVols(h: HostId) returns (vols: set<string>)
      ensures vols == MappedVolumes(State(), h)
    {
      vols := set k | k in mappings && k.1 == h :: k.0;
    }

    method DeleteHost(h: HostId)
      modifies this
      ensures State() == WithoutHost(old(State()), h)
    {
      hosts := hosts - {h};
      hostByInitiator := map i | i in hostByInitiator && hostByInitiator[i] != h :: hostByInitiator[i];
      chapSecrets := chapSecrets - {h};
    }
  }
}
