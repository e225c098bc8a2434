/**
 * What the provider's listing calls return, and how each observed object
 * becomes the row written to its table (the `*_data` dictionaries built in
 * resource_tracker.py). Dictionary-valued attributes are `map<string, string>`;
 * a key the provider omits is `None`.
 */
module Listing {
  import opened Wrappers
  import opened Inventory

  datatype ServerObs = ServerObs(
    id: string, name: string, status: string, createdAt: int, updatedAt: int,
    flavor: Option<map<string, string>>, image: Option<map<string, string>>,
    securityGroups: seq<map<string, string>>, addresses: seq<NetworkAddresses>)

  datatype NetworkObs = NetworkObs(
    id: string, name: string, status: string, createdAt: int, updatedAt: int,
    portSecurityEnabled: bool)

  datatype RouterObs = RouterObs(
    id: string, name: string, status: string, createdAt: int, updatedAt: int,
    externalGatewayInfo: Json)

  /** Subnets carry no status of their own. */
  datatype SubnetObs = SubnetObs(
    id: string, name: string, createdAt: int, updatedAt: int,
    networkId: string, allocationPools: Json, cidr: string)

  datatype ReservationObs = ReservationObs(
    id: string, resourceId: string, resourceType: string, status: string,
    createdAt: int, updatedAt: int,
    missingResources: Option<bool>, resourcesChanged: Option<bool>,
    resourceProperties: Option<Json>, networkId: Option<string>,
    min: Option<int>, max: Option<int>)

  datatype LeaseObs = LeaseObs(
    id: string, name: string, userId: string, projectId: string,
    startDate: int, endDate: int, status: string, createdAt: int, updatedAt: int,
    degraded: Option<bool>, trustId: Option<string>,
    reservations: seq<ReservationObs>)

  /** `d.get('id') if d else None` for the flavor and image dictionaries. */
  function IdOf(d: Option<map<string, string>>): (r: Option<string>)
    ensures r.Some? <==> d.Some? && "id" in d.value
    ensures r.Some? ==> r.value == d.value["id"]
  {
    if d.Some? && "id" in d.value then Some(d.value["id"]) else None
  }

  /** `[sg.get('name') for sg in security_groups]`. */
  function GroupNames(groups: seq<map<string, string>>): (r: seq<Option<string>>)
    ensures |r| == |groups|
    ensures forall i :: 0 <= i < |r| ==>
      (r[i].Some? <==> "name" in groups[i]) && (r[i].Some? ==> r[i].value == groups[i]["name"])
  {
    if groups == [] then []
    else [if "name" in groups[0] then Some(groups[0]["name"]) else None] + GroupNames(groups[1..])
  }

  /** A freshly observed row: last seen now, not flagged absent, not deleted. */
  predicate Stamped(r: Record, now: int) {
    r.lastSeen == now && r.firstNotSeen.None? && !r.systemDeleted
  }

  function ServerRecord(s: ServerObs, now: int): (r: Record)
    ensures Stamped(r, now) && r.id == s.id && r.created == s.createdAt
    ensures r.payload.ServerInfo? && r.payload.flavor == IdOf(s.flavor) && r.payload.image == IdOf(s.image)
  {
    Record(s.id, s.name, s.status, s.createdAt, s.updatedAt, now, None, false,
           ServerInfo(IdOf(s.flavor), IdOf(s.image), GroupNames(s.securityGroups), s.addresses))
  }

  function NetworkRecord(n: NetworkObs, now: int): (r: Record)
    ensures Stamped(r, now) && r.id == n.id && r.created == n.createdAt && r.payload.NetworkInfo?
  {
    Record(n.id, n.name, n.status, n.createdAt, n.updatedAt, now, None, false,
           NetworkInfo(n.portSecurityEnabled))
  }

  function RouterRecord(r0: RouterObs, now: int): (r: Record)
    ensures Stamped(r, now) && r.id == r0.id && r.created == r0.createdAt && r.payload.RouterInfo?
  {
    Record(r0.id, r0.name, r0.status, r0.createdAt, r0.updatedAt, now, None, false,
           RouterInfo(r0.externalGatewayInfo))
  }

  /** Subnets are always stored with status 'ACTIVE'. */
  function SubnetRecord(s: SubnetObs, now: int): (r: Record)
    ensures Stamped(r, now) && r.id == s.id && r.status == "ACTIVE" && r.payload.SubnetInfo?
  {
    Record(s.id, s.name, "ACTIVE", s.createdAt, s.updatedAt, now, None, false,
           SubnetInfo(s.networkId, s.allocationPools, s.cidr))
  }

  /** A lease's `degraded` defaults to false when the provider omits it. */
  function LeaseRecord(l: LeaseObs, now: int): (r: Record)
    ensures Stamped(r, now) && r.id == l.id && r.name == l.name && r.payload.LeaseInfo?
    ensures l.degraded.None? ==> !r.payload.degraded
    ensures l.degraded.Some? ==> r.payload.degraded == l.degraded.value
  {
    Record(l.id, l.name, l.status, l.createdAt, l.updatedAt, now, None, false,
           LeaseInfo(l.userId, l.projectId, l.startDate, l.endDate, l.degraded.GetOr(false), l.trustId))
  }

  /**
   * A reservation row of lease `leaseId`. Omitted fields default to
   * `missing_resources = resources_changed = false`, empty
   * `resource_properties` and `min_hosts = max_hosts = 1`.
   */
  function ReservationRecord(leaseId: string, o: ReservationObs): (r: Reservation)
    ensures r.id == o.id && r.leaseId == leaseId
    ensures o.missingResources.None? ==> !r.missingResources
    ensures o.resourcesChanged.None? ==> !r.resourcesChanged
    ensures o.resourceProperties.None? ==> r.resourceProperties == JsonEmpty
    ensures o.min.None? ==> r.minHosts == 1
    ensures o.max.None? ==> r.maxHosts == 1
  {
    Reservation(o.id, leaseId, o.resourceId, o.resourceType, o.status, o.createdAt, o.updatedAt,
                o.missingResources.GetOr(false), o.resourcesChanged.GetOr(false),
                o.resourceProperties.GetOr(JsonEmpty), o.networkId,
                o.min.GetOr(1), o.max.GetOr(1))
  }

  function ServerRecords(l: seq<ServerObs>, now: int): (r: seq<Record>)
    ensures |r| == |l| && forall i :: 0 <= i < |l| ==> r[i] == ServerRecord(l[i], now)
  {
    seq(|l|, i requires 0 <= i < |l| => ServerRecord(l[i], now))
  }

  function NetworkRecords(l: seq<NetworkObs>, now: int): (r: seq<Record>)
    ensures |r| == |l| && forall i :: 0 <= i < |l| ==> r[i] == NetworkRecord(l[i], now)
  {
    seq(|l|, i requires 0 <= i < |l| => NetworkRecord(l[i], now))
  }

  function RouterRecords(l: seq<RouterObs>, now: int): (r: seq<Record>)
    ensures |r| == |l| && forall i :: 0 <= i < |l| ==> r[i] == RouterRecord(l[i], now)
  {
    seq(|l|, i requires 0 <= i < |l| => RouterRecord(l[i], now))
  }

  function SubnetRecords(l: seq<SubnetObs>, now: int): (r: seq<Record>)
    ensures |r| == |l| && forall i :: 0 <= i < |l| ==> r[i] == SubnetRecord(l[i], now)
  {
    seq(|l|, i requires 0 <= i < |l| => SubnetRecord(l[i], now))
  }

  function LeaseRecords(l: seq<LeaseObs>, now: int): (r: seq<Record>)
    ensures |r| == |l| && forall i :: 0 <= i < |l| ==> r[i] == LeaseRecord(l[i], now)
  {
    seq(|l|, i requires 0 <= i < |l| => LeaseRecord(l[i], now))
  }

  function ReservationRecords(leaseId: string, l: seq<ReservationObs>): (r: seq<Reservation>)
    ensures |r| == |l| && forall i :: 0 <= i < |l| ==> r[i] == ReservationRecord(leaseId, l[i])
  {
    seq(|l|, i requires 0 <= i < |l| => ReservationRecord(leaseId, l[i]))
  }
}
