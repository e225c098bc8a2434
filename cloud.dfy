/**
 * The cloud API as seen by the cleaner. Every mutating or listing call the
 * cleaner makes is one `Call`; the provider is an oracle that fixes, for a
 * run, which calls raise and what the two listing calls return.
 */
module Cloud {
  /** A floating IP as `network.ips()` lists it. */
  datatype FloatingIp = FloatingIp(id: string, address: string)

  /** A port as `network.ports(device_id=...)` lists it: its owner and the subnet of each fixed IP. */
  datatype Port = Port(deviceOwner: string, fixedIpSubnets: seq<string>)

  datatype Call =
    | ListFloatingIps
    | DeleteFloatingIp(ipId: string)
    | DeleteServer(serverId: string)
    | ClearGateway(routerId: string)
    | ListRouterPorts(routerId: string)
    | RemoveInterface(routerId: string, subnetId: string)
    | DeleteRouter(routerId: string)
    | DeleteSubnet(subnetId: string)
    | DeleteNetwork(networkId: string)

  /**
   * The cloud during one cleanup run: the calls that raise, the floating
   * IPs of the project and the ports attached to each router.
   */
  datatype Provider = Provider(rejected: set<Call>, floatingIps: seq<FloatingIp>, routerPorts: map<string, seq<Port>>) {
    /** The call returns without raising. */
    predicate Accepts(c: Call) {
      c !in rejected
    }

    /** The ports of a router; a router the provider does not know has none. */
    function PortsOf(routerId: string): seq<Port> {
      if routerId in routerPorts then routerPorts[routerId] else []
    }
  }

  /** The connection the cleaner talks through; it remembers every call it issued. */
  class CloudGateway {
    const provider: Provider
    var issued: seq<Call>

    constructor (provider: Provider)
      ensures this.provider == provider && issued == []
    {
      this.provider := provider;
      issued := [];
    }

    /** Issue one call; `ok` is false when the call raised. */
    method Send(c: Call) returns (ok: bool)
      modifies this
      ensures issued == old(issued) + [c]
      ensures ok == provider.Accepts(c)
    {
      issued := issued + [c];
      ok := provider.Accepts(c);
    }
  }
}
