/**
 * The inventory database: one table per resource kind, keyed by the
 * provider's resource id, plus the child table of GPU-lease reservations.
 */
module Inventory {
  import opened Wrappers

  /**
   * A JSON column whose content the core never inspects. Only its Python
   * truthiness matters: `None` and `{}` are false, any other document true.
   */
  datatype Json = JsonNull | JsonEmpty | JsonDocument(text: string) {
    predicate Truthy() { JsonDocument? }
  }

  /** One entry of a server's address list: `OS-EXT-IPS:type` and `addr`. */
  datatype Address = Address(ipType: Option<string>, addr: Option<string>)

  /** The addresses a server has on one network, in the order the provider lists them. */
  datatype NetworkAddresses = NetworkAddresses(network: string, entries: seq<Address>)

  /** The columns that differ between resource kinds. */
  datatype Payload =
    | ServerInfo(flavor: Option<string>, image: Option<string>,
                 securityGroups: seq<Option<string>>, addresses: seq<NetworkAddresses>)
    | NetworkInfo(portSecurityEnabled: bool)
    | RouterInfo(externalGatewayInfo: Json)
    | SubnetInfo(networkId: string, allocationPools: Json, cidr: string)
    | LeaseInfo(userId: string, projectId: string, startDate: int, endDate: int,
                degraded: bool, trustId: Option<string>)

  /**
   * A row of the servers, networks, routers, subnets or gpu_leases table.
   * Timestamps are integers (seconds); `firstNotSeen` is NULL until a
   * reconciliation pass first misses the resource.
   */
  datatype Record = Record(
    id: string,
    name: string,
    status: string,
    created: int,
    updated: int,
    lastSeen: int,
    firstNotSeen: Option<int>,
    systemDeleted: bool,
    payload: Payload)

  /** A row of gpu_lease_reservations; `leaseId` is the owning lease. */
  datatype Reservation = Reservation(
    id: string,
    leaseId: string,
    resourceId: string,
    resourceType: string,
    status: string,
    created: int,
    updated: int,
    missingResources: bool,
    resourcesChanged: bool,
    resourceProperties: Json,
    networkId: Option<string>,
    minHosts: int,
    maxHosts: int)

  type Table = map<string, Record>
  type ReservationTable = map<string, Reservation>

  /** Every row is stored under its own id (the id column is the primary key). */
  ghost predicate KeysMatch(t: Table) {
    forall k :: k in t ==> t[k].id == k
  }

  /** The database the tracker writes and the cleaner reads and flags. */
  class Inventory {
    var servers: Table
    var networks: Table
    var routers: Table
    var subnets: Table
    var gpuLeases: Table
    var reservations: ReservationTable

    ghost predicate Valid()
      reads this
    {
      KeysMatch(servers) && KeysMatch(networks) && KeysMatch(routers) &&
      KeysMatch(subnets) && KeysMatch(gpuLeases)
    }

    /** An empty inventory. */
    constructor ()
      ensures Valid()
      ensures servers == map[] && networks == map[] && routers == map[]
      ensures subnets == map[] && gpuLeases == map[] && reservations == map[]
    {
      servers, networks, routers, subnets, gpuLeases := map[], map[], map[], map[], map[];
      reservations := map[];
    }
  }
}
