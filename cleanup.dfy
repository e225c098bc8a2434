/**
 * ResourceCleaner: the retirement run. Servers are deleted first (after
 * their floating IPs are released), then routers (after they are cleaned),
 * then subnets, then networks; a failure on one resource is logged and the
 * run moves on. The ids whose delete call returned are then flagged
 * `system_deleted` in the inventory, one bulk update per kind.
 *
 * Each step is specified by a function of the provider oracle that gives
 * the calls it issues; the methods of `ResourceCleaner` are proved to
 * issue exactly those calls.
 */
module Cleanup {
  import opened Wrappers
  import opened Inventory
  import opened Cloud
  import opened Selection
  import Reconcile

  /** The `device_owner` of a port that attaches a subnet to a router. */
  const RouterInterfaceOwner := "network:router_interface"
  /** The `OS-EXT-IPS:type` of a floating address. */
  const FloatingType := "floating"

  // ---------------------------------------------------------------------
  // Floating-IP release

  /** An address entry of type `floating` with a non-empty `addr`. */
  predicate IsFloating(a: Address) {
    a.ipType == Some(FloatingType) && a.addr.Some? && a.addr.value != ""
  }

  /** The floating addresses of one network's entries, in order. */
  function FloatingAddrs(entries: seq<Address>): seq<string> {
    if entries == [] then []
    else
      var last := entries[|entries| - 1];
      FloatingAddrs(entries[..|entries| - 1]) + (if IsFloating(last) then [last.addr.value] else [])
  }

  /** The floating addresses of a server, network by network. */
  function ServerFloatingAddrs(nets: seq<NetworkAddresses>): seq<string> {
    if nets == [] then []
    else ServerFloatingAddrs(nets[..|nets| - 1]) + FloatingAddrs(nets[|nets| - 1].entries)
  }

  /** A network's floating addresses are the `addr` of its entries of type `floating` with a non-empty `addr`. */
  lemma {:induction false} FloatingAddrsMembers(entries: seq<Address>)
    ensures forall x :: x in FloatingAddrs(entries) <==> exists e :: e in entries && IsFloating(e) && e.addr.value == x
  {
    if entries != [] {
      var init := entries[..|entries| - 1];
      assert entries == init + [entries[|entries| - 1]];
      FloatingAddrsMembers(init);
    }
  }

  /** A server's floating addresses are those of its networks. */
  lemma {:induction false} ServerFloatingAddrsMembers(nets: seq<NetworkAddresses>)
    ensures forall x :: x in ServerFloatingAddrs(nets) <==> exists n :: n in nets && x in FloatingAddrs(n.entries)
  {
    if nets != [] {
      var init := nets[..|nets| - 1];
      assert nets == init + [nets[|nets| - 1]];
      ServerFloatingAddrsMembers(init);
    }
  }

  /** The `addresses` column of a server row. */
  function AddressesOf(server: Record): seq<NetworkAddresses> {
    if server.payload.ServerInfo? then server.payload.addresses else []
  }

  /** The first listed floating IP with the given address. */
  function FirstWithAddress(ips: seq<FloatingIp>, a: string): (r: Option<FloatingIp>)
    ensures r.None? <==> forall i :: 0 <= i < |ips| ==> ips[i].address != a
    ensures r.Some? ==> exists i :: 0 <= i < |ips| && ips[i] == r.value && r.value.address == a &&
                          forall j :: 0 <= j < i ==> ips[j].address != a
  {
    if ips == [] then None
    else if ips[0].address == a then Some(ips[0])
    else
      var r := FirstWithAddress(ips[1..], a);
      assert forall i :: 1 <= i < |ips| ==> ips[i] == ips[1..][i - 1];
      r
  }

  /** The calls releasing one floating address: list the IPs, delete the first match. */
  function ReleaseOne(p: Provider, a: string): seq<Call> {
    if !p.Accepts(ListFloatingIps) then [ListFloatingIps]
    else match FirstWithAddress(p.floatingIps, a)
      case None => [ListFloatingIps]
      case Some(ip) => [ListFloatingIps, DeleteFloatingIp(ip.id)]
  }

  /** The calls releasing a sequence of floating addresses, one after the other. */
  function ReleaseAll(p: Provider, addrs: seq<string>): seq<Call> {
    if addrs == [] then []
    else ReleaseAll(p, addrs[..|addrs| - 1]) + ReleaseOne(p, addrs[|addrs| - 1])
  }

  /** The calls for one network's entries, entry by entry. */
  function NetworkReleaseCalls(p: Provider, entries: seq<Address>): seq<Call> {
    if entries == [] then []
    else
      var last := entries[|entries| - 1];
      NetworkReleaseCalls(p, entries[..|entries| - 1]) +
      (if IsFloating(last) then ReleaseOne(p, last.addr.value) else [])
  }

  /** The calls for a server's networks, network by network. */
  function ServerReleaseCalls(p: Provider, nets: seq<NetworkAddresses>): seq<Call> {
    if nets == [] then []
    else ServerReleaseCalls(p, nets[..|nets| - 1]) + NetworkReleaseCalls(p, nets[|nets| - 1].entries)
  }

  /** The calls `release_floating_ips` issues for a server outside a dry run. */
  function ReleaseCalls(p: Provider, server: Record): seq<Call> {
    ServerReleaseCalls(p, AddressesOf(server))
  }

  /** Walking the entries releases the server's floating addresses in order. */
  lemma {:induction false} NetworkReleaseByAddress(p: Provider, entries: seq<Address>)
    ensures NetworkReleaseCalls(p, entries) == ReleaseAll(p, FloatingAddrs(entries))
  {
    if entries != [] {
      var init := entries[..|entries| - 1];
      var last := entries[|entries| - 1];
      NetworkReleaseByAddress(p, init);
      if IsFloating(last) {
        ReleaseAllConcat(p, FloatingAddrs(init), [last.addr.value]);
        assert ReleaseAll(p, [last.addr.value]) == ReleaseAll(p, []) + ReleaseOne(p, last.addr.value);
      } else {
        assert FloatingAddrs(init) + [] == FloatingAddrs(init);
      }
    }
  }

  lemma {:induction false} ServerReleaseByAddress(p: Provider, nets: seq<NetworkAddresses>)
    ensures ServerReleaseCalls(p, nets) == ReleaseAll(p, ServerFloatingAddrs(nets))
  {
    if nets != [] {
      var init := nets[..|nets| - 1];
      ServerReleaseByAddress(p, init);
      NetworkReleaseByAddress(p, nets[|nets| - 1].entries);
      ReleaseAllConcat(p, ServerFloatingAddrs(init), FloatingAddrs(nets[|nets| - 1].entries));
    }
  }

  /** Releasing two runs of addresses is releasing their concatenation. */
  lemma {:induction false} ReleaseAllConcat(p: Provider, a: seq<string>, b: seq<string>)
    ensures ReleaseAll(p, a + b) == ReleaseAll(p, a) + ReleaseAll(p, b)
  {
    if b != [] {
      var b' := b[..|b| - 1];
      assert (a + b)[..|a + b| - 1] == a + b';
      ReleaseAllConcat(p, a, b');
    } else {
      assert a + b == a;
    }
  }

  /**
   * Release only lists floating IPs and deletes, for some address it was
   * given, the first listed IP with that address.
   */
  lemma {:induction false} ReleaseTargets(p: Provider, addrs: seq<string>)
    ensures forall c :: c in ReleaseAll(p, addrs) ==>
      c == ListFloatingIps ||
      (c.DeleteFloatingIp? && exists a :: a in addrs && FirstWithAddress(p.floatingIps, a) != None &&
                                          FirstWithAddress(p.floatingIps, a).value.id == c.ipId)
  {
    if addrs != [] {
      var init := addrs[..|addrs| - 1];
      var last := addrs[|addrs| - 1];
      ReleaseTargets(p, init);
      assert forall a :: a in init ==> a in addrs;
      assert last in addrs;
      forall c | c in ReleaseOne(p, last) && c != ListFloatingIps
        ensures c.DeleteFloatingIp? && FirstWithAddress(p.floatingIps, last) != None &&
                FirstWithAddress(p.floatingIps, last).value.id == c.ipId
      {
      }
    }
  }

  /**
   * When the IPs can be listed, every address that has a matching floating
   * IP gets that IP deleted; a failed delete does not stop the others.
   */
  lemma {:induction false} ReleaseComplete(p: Provider, addrs: seq<string>)
    requires p.Accepts(ListFloatingIps)
    ensures forall a :: a in addrs && FirstWithAddress(p.floatingIps, a) != None ==>
      DeleteFloatingIp(FirstWithAddress(p.floatingIps, a).value.id) in ReleaseAll(p, addrs)
  {
    if addrs != [] {
      var init := addrs[..|addrs| - 1];
      ReleaseComplete(p, init);
      assert addrs == init + [addrs[|addrs| - 1]];
    }
  }

  /** Exactly one listing call per floating address. */
  lemma {:induction false} ReleaseListsOncePerAddress(p: Provider, addrs: seq<string>)
    ensures multiset(ReleaseAll(p, addrs))[ListFloatingIps] == |addrs|
  {
    if addrs != [] {
      ReleaseListsOncePerAddress(p, addrs[..|addrs| - 1]);
    }
  }

  /**
   * Releasing a server's IPs lists the floating IPs and deletes only IPs
   * that are the first listed match of one of its addresses of type
   * `floating`; when the listing works, every such address that has a
   * match gets it deleted.
   */
  lemma ServerRelease(p: Provider, server: Record)
    ensures forall c :: c in ReleaseCalls(p, server) ==>
      c == ListFloatingIps ||
      (c.DeleteFloatingIp? &&
       exists n, e :: n in AddressesOf(server) && e in n.entries && IsFloating(e) &&
                      FirstWithAddress(p.floatingIps, e.addr.value) != None &&
                      FirstWithAddress(p.floatingIps, e.addr.value).value.id == c.ipId)
    ensures p.Accepts(ListFloatingIps) ==>
      forall n, e ::
        (n in AddressesOf(server) && e in n.entries && IsFloating(e) &&
         FirstWithAddress(p.floatingIps, e.addr.value) != None) ==>
        DeleteFloatingIp(FirstWithAddress(p.floatingIps, e.addr.value).value.id) in ReleaseCalls(p, server)
  {
    var addrs := ServerFloatingAddrs(AddressesOf(server));
    ServerReleaseByAddress(p, AddressesOf(server));
    ReleaseTargets(p, addrs);
    ServerFloatingAddrsMembers(AddressesOf(server));
    forall n | n in AddressesOf(server) {
      FloatingAddrsMembers(n.entries);
    }
    if p.Accepts(ListFloatingIps) {
      ReleaseComplete(p, addrs);
    }
  }

  // ---------------------------------------------------------------------
  // Router clean-up

  predicate IsInterface(port: Port) {
    port.deviceOwner == RouterInterfaceOwner
  }

  /** The calls a step issued, and whether it returned without raising. */
  datatype Outcome = Outcome(calls: seq<Call>, ok: bool)

  /** The `external_gateway_info` column of a router row. */
  function GatewayOf(router: Record): Json {
    if router.payload.RouterInfo? then router.payload.externalGatewayInfo else JsonNull
  }

  /**
   * Detaching one port: ports of other owners are skipped; an interface
   * port without a fixed IP raises before any call.
   */
  function DetachOne(p: Provider, routerId: string, port: Port): Outcome {
    if !IsInterface(port) then Outcome([], true)
    else if port.fixedIpSubnets == [] then Outcome([], false)
    else
      var c := RemoveInterface(routerId, port.fixedIpSubnets[0]);
      Outcome([c], p.Accepts(c))
  }

  /** Detaching the ports in order, stopping at the first that raises. */
  function DetachAll(p: Provider, routerId: string, ports: seq<Port>): Outcome {
    if ports == [] then Outcome([], true)
    else
      var prev := DetachAll(p, routerId, ports[..|ports| - 1]);
      if !prev.ok then prev
      else
        var step := DetachOne(p, routerId, ports[|ports| - 1]);
        Outcome(prev.calls + step.calls, step.ok)
  }

  /**
   * `clean_router` outside a dry run: clear the gateway when there is one,
   * list the router's ports (the listing is lazy, so it happens after the
   * gateway call) and detach every interface port.
   */
  function CleanRouterOutcome(p: Provider, router: Record): Outcome {
    var id := router.id;
    var gateway := if GatewayOf(router).Truthy() then [ClearGateway(id)] else [];
    if gateway != [] && !p.Accepts(ClearGateway(id)) then Outcome(gateway, false)
    else if !p.Accepts(ListRouterPorts(id)) then Outcome(gateway + [ListRouterPorts(id)], false)
    else
      var detach := DetachAll(p, id, p.PortsOf(id));
      Outcome(gateway + [ListRouterPorts(id)] + detach.calls, detach.ok)
  }

  /** Once a detach raised, later ports change nothing. */
  lemma {:induction false} DetachFailurePersists(p: Provider, routerId: string, ports: seq<Port>, i: nat)
    requires i <= |ports| && !DetachAll(p, routerId, ports[..i]).ok
    ensures DetachAll(p, routerId, ports) == DetachAll(p, routerId, ports[..i])
  {
    if i < |ports| {
      var init := ports[..|ports| - 1];
      assert init[..i] == ports[..i];
      DetachFailurePersists(p, routerId, init, i);
    } else {
      assert ports[..i] == ports;
    }
  }

  /**
   * Detaching removes only interface ports of this router, by the subnet of
   * their first fixed IP; it succeeds exactly when every call it made
   * returned and every interface port has a fixed IP, and then every
   * interface port was detached.
   */
  lemma {:induction false} DetachProperties(p: Provider, routerId: string, ports: seq<Port>)
    ensures var d := DetachAll(p, routerId, ports);
      (forall c :: c in d.calls ==>
         (c.RemoveInterface? && c.routerId == routerId &&
          exists port :: port in ports && IsInterface(port) && port.fixedIpSubnets != [] &&
                         port.fixedIpSubnets[0] == c.subnetId)) &&
      (d.ok <==> (forall c :: c in d.calls ==> p.Accepts(c)) &&
                 (forall port :: port in ports && IsInterface(port) ==> port.fixedIpSubnets != [])) &&
      (d.ok ==> forall port :: port in ports && IsInterface(port) ==>
         RemoveInterface(routerId, port.fixedIpSubnets[0]) in d.calls)
  {
    if ports != [] {
      var init := ports[..|ports| - 1];
      var last := ports[|ports| - 1];
      assert ports == init + [last];
      DetachProperties(p, routerId, init);
      assert forall port :: port in init ==> port in ports;
    }
  }

  /**
   * Router clean-up only ever touches this router: it clears the gateway
   * exactly when the row has one, lists the router's ports, and detaches
   * only interface ports. It succeeds exactly when no call raised and
   * every interface port has a fixed IP, and then every interface port
   * was detached.
   */
  lemma CleanRouterProperties(p: Provider, router: Record)
    ensures var o := CleanRouterOutcome(p, router);
      var ports := p.PortsOf(router.id);
      (ClearGateway(router.id) in o.calls <==> GatewayOf(router).Truthy()) &&
      (forall c :: c in o.calls ==>
         (c.ClearGateway? && c.routerId == router.id) ||
         (c.ListRouterPorts? && c.routerId == router.id) ||
         (c.RemoveInterface? && c.routerId == router.id &&
          exists port :: port in ports && IsInterface(port) && port.fixedIpSubnets != [] &&
                         port.fixedIpSubnets[0] == c.subnetId)) &&
      (o.ok <==> (forall c :: c in o.calls ==> p.Accepts(c)) &&
                 (forall port :: port in ports && IsInterface(port) ==> port.fixedIpSubnets != [])) &&
      (o.ok ==> forall port :: port in ports && IsInterface(port) ==>
         RemoveInterface(router.id, port.fixedIpSubnets[0]) in o.calls)
  {
    DetachProperties(p, router.id, p.PortsOf(router.id));
  }

  // ---------------------------------------------------------------------
  // Deletion phases

  datatype Kind = ServerKind | RouterKind | SubnetKind | NetworkKind

  /** The call that deletes a resource of the given kind. */
  function DeleteCall(kind: Kind, id: string): Call {
    match kind
    case ServerKind => DeleteServer(id)
    case RouterKind => DeleteRouter(id)
    case SubnetKind => DeleteSubnet(id)
    case NetworkKind => DeleteNetwork(id)
  }

  predicate IsResourceDelete(c: Call) {
    c.DeleteServer? || c.DeleteRouter? || c.DeleteSubnet? || c.DeleteNetwork?
  }

  /** The phase of the run a call belongs to. */
  function KindOf(c: Call): Kind {
    match c
    case ListFloatingIps => ServerKind
    case DeleteFloatingIp(_) => ServerKind
    case DeleteServer(_) => ServerKind
    case ClearGateway(_) => RouterKind
    case ListRouterPorts(_) => RouterKind
    case RemoveInterface(_, _) => RouterKind
    case DeleteRouter(_) => RouterKind
    case DeleteSubnet(_) => SubnetKind
    case DeleteNetwork(_) => NetworkKind
  }

  /** Position of a phase in the run. */
  function Stage(k: Kind): nat {
    match k
    case ServerKind => 0
    case RouterKind => 1
    case SubnetKind => 2
    case NetworkKind => 3
  }

  /** The calls of one phase and the ids it recorded as deleted. */
  datatype Phase = Phase(calls: seq<Call>, recorded: seq<string>)

  /**
   * One resource of a phase: a server has its floating IPs released first
   * (errors there are swallowed), a router is cleaned first and skipped if
   * that raises; the id is recorded when the delete call returns.
   */
  function AttemptOne(p: Provider, kind: Kind, r: Record): Phase {
    var del := DeleteCall(kind, r.id);
    var recorded := if p.Accepts(del) then [r.id] else [];
    match kind
    case ServerKind => Phase(ReleaseCalls(p, r) + [del], recorded)
    case RouterKind =>
      var clean := CleanRouterOutcome(p, r);
      if clean.ok then Phase(clean.calls + [del], recorded) else Phase(clean.calls, [])
    case SubnetKind => Phase([del], recorded)
    case NetworkKind => Phase([del], recorded)
  }

  /** A phase over its items in order; one item's failure does not stop the next. */
  function PhaseRun(p: Provider, kind: Kind, items: seq<Record>): Phase {
    if items == [] then Phase([], [])
    else
      var prev := PhaseRun(p, kind, items[..|items| - 1]);
      var step := AttemptOne(p, kind, items[|items| - 1]);
      Phase(prev.calls + step.calls, prev.recorded + step.recorded)
  }

  /** The `deleted_resources` lists. */
  datatype Deleted = Deleted(servers: seq<string>, routers: seq<string>, subnets: seq<string>, networks: seq<string>)

  /** The calls of a whole run and the ids it recorded. */
  datatype Run = Run(calls: seq<Call>, deleted: Deleted)

  /** `delete_resources` outside a dry run: servers, routers, subnets, networks. */
  function DeletionRun(p: Provider, sel: Selected): Run {
    var s := PhaseRun(p, ServerKind, sel.servers);
    var r := PhaseRun(p, RouterKind, sel.routers);
    var n := PhaseRun(p, SubnetKind, sel.subnets);
    var w := PhaseRun(p, NetworkKind, sel.networks);
    Run(s.calls + r.calls + n.calls + w.calls, Deleted(s.recorded, r.recorded, n.recorded, w.recorded))
  }

  /** The ids of a sequence of rows, in order. */
  function IdList(items: seq<Record>): (r: seq<string>)
    ensures |r| == |items| && forall i :: 0 <= i < |items| ==> r[i] == items[i].id
  {
    seq(|items|, i requires 0 <= i < |items| => items[i].id)
  }

  /** `a` can be obtained from `b` by dropping elements. */
  predicate IsSubsequence(a: seq<string>, b: seq<string>)
    decreases |b|
  {
    if a == [] then true
    else if b == [] then false
    else if a[|a| - 1] == b[|b| - 1] then IsSubsequence(a[..|a| - 1], b[..|b| - 1])
    else IsSubsequence(a, b[..|b| - 1])
  }

  lemma {:induction false} SubsequenceDropLast(a: seq<string>, b: seq<string>)
    requires a != [] && IsSubsequence(a, b)
    ensures IsSubsequence(a[..|a| - 1], b)
    decreases |b|, 0
  {
    var b' := b[..|b| - 1];
    assert b == b' + [b[|b| - 1]];
    if a[|a| - 1] != b[|b| - 1] {
      SubsequenceDropLast(a, b');
    }
    SubsequenceExtend(a[..|a| - 1], b', b[|b| - 1]);
  }

  lemma {:induction false} SubsequenceExtend(a: seq<string>, b: seq<string>, y: string)
    requires IsSubsequence(a, b)
    ensures IsSubsequence(a, b + [y])
    decreases |b|, 1
  {
    var b' := b + [y];
    assert b'[..|b'| - 1] == b;
    if a != [] && a[|a| - 1] == y {
      SubsequenceDropLast(a, b);
    }
  }

  /** A phase records exactly the ids whose delete call it issued and that returned. */
  lemma {:induction false} PhaseRecorded(p: Provider, kind: Kind, items: seq<Record>)
    ensures var ph := PhaseRun(p, kind, items);
      forall x :: x in ph.recorded <==> DeleteCall(kind, x) in ph.calls && p.Accepts(DeleteCall(kind, x))
  {
    if items != [] {
      var init := items[..|items| - 1];
      var last := items[|items| - 1];
      PhaseRecorded(p, kind, init);
      var prev := PhaseRun(p, kind, init);
      var step := AttemptOne(p, kind, last);
      AttemptOneCalls(p, kind, last);
      forall x ensures DeleteCall(kind, x) in step.calls ==> x == last.id {
        if DeleteCall(kind, x) in step.calls {
          assert IsResourceDelete(DeleteCall(kind, x));
          DeleteCallInjective(kind, x, last.id);
        }
      }
    }
  }

  lemma DeleteCallInjective(kind: Kind, x: string, y: string)
    requires DeleteCall(kind, x) == DeleteCall(kind, y)
    ensures x == y
  {
  }

  lemma SubsequenceAppendBoth(a: seq<string>, b: seq<string>, y: string)
    requires IsSubsequence(a, b)
    ensures IsSubsequence(a + [y], b + [y])
  {
    assert (a + [y])[..|a + [y]| - 1] == a;
    assert (b + [y])[..|b + [y]| - 1] == b;
  }

  /** One attempt records its own id or nothing. */
  lemma AttemptRecorded(p: Provider, kind: Kind, r: Record)
    ensures AttemptOne(p, kind, r).recorded == [] || AttemptOne(p, kind, r).recorded == [r.id]
  {
  }

  /** A phase records ids in the order of its input. */
  lemma {:induction false} PhaseRecordedInOrder(p: Provider, kind: Kind, items: seq<Record>)
    ensures IsSubsequence(PhaseRun(p, kind, items).recorded, IdList(items))
  {
    if items != [] {
      var init := items[..|items| - 1];
      var last := items[|items| - 1];
      PhaseRecordedInOrder(p, kind, init);
      AttemptRecorded(p, kind, last);
      var prev := PhaseRun(p, kind, init);
      var step := AttemptOne(p, kind, last);
      assert IdList(items) == IdList(init) + [last.id];
      if step.recorded == [] {
        assert prev.recorded + step.recorded == prev.recorded;
        SubsequenceExtend(prev.recorded, IdList(init), last.id);
      } else {
        SubsequenceAppendBoth(prev.recorded, IdList(init), last.id);
      }
    }
  }

  /**
   * The calls for one resource belong to its phase; the only resource
   * delete among them is the delete of that resource, issued unless its
   * router clean-up failed.
   */
  lemma AttemptOneCalls(p: Provider, kind: Kind, r: Record)
    ensures var a := AttemptOne(p, kind, r);
      (forall c :: c in a.calls ==> KindOf(c) == kind) &&
      (forall c :: c in a.calls && IsResourceDelete(c) ==> c == DeleteCall(kind, r.id)) &&
      (DeleteCall(kind, r.id) in a.calls <==> (kind == RouterKind ==> CleanRouterOutcome(p, r).ok)) &&
      a.recorded == (if DeleteCall(kind, r.id) in a.calls && p.Accepts(DeleteCall(kind, r.id)) then [r.id] else [])
  {
    match kind
    case ServerKind =>
      ServerReleaseByAddress(p, AddressesOf(r));
      ReleaseTargets(p, ServerFloatingAddrs(AddressesOf(r)));
    case RouterKind =>
      CleanRouterProperties(p, r);
    case SubnetKind =>
    case NetworkKind =>
  }

  /** Every call of a phase belongs to it. */
  lemma {:induction false} PhaseKinds(p: Provider, kind: Kind, items: seq<Record>)
    ensures forall c :: c in PhaseRun(p, kind, items).calls ==> KindOf(c) == kind
  {
    if items != [] {
      PhaseKinds(p, kind, items[..|items| - 1]);
      AttemptOneCalls(p, kind, items[|items| - 1]);
    }
  }

  /** Every resource delete of a phase targets one of its items, a router only once its clean-up succeeded. */
  lemma {:induction false} PhaseTargets(p: Provider, kind: Kind, items: seq<Record>)
    ensures forall c :: c in PhaseRun(p, kind, items).calls && IsResourceDelete(c) ==>
      exists r :: r in items && c == DeleteCall(kind, r.id) &&
                  (kind == RouterKind ==> CleanRouterOutcome(p, r).ok)
  {
    if items != [] {
      var init := items[..|items| - 1];
      var last := items[|items| - 1];
      assert items == init + [last];
      PhaseTargets(p, kind, init);
      AttemptOneCalls(p, kind, last);
    }
  }

  /**
   * Every item of a phase is attempted, whatever happened to the ones
   * before it; a router is deleted once its clean-up succeeded.
   */
  lemma {:induction false} PhaseAttempts(p: Provider, kind: Kind, items: seq<Record>)
    ensures forall r :: r in items && (kind == RouterKind ==> CleanRouterOutcome(p, r).ok) ==>
      DeleteCall(kind, r.id) in PhaseRun(p, kind, items).calls
  {
    if items != [] {
      var init := items[..|items| - 1];
      var last := items[|items| - 1];
      assert items == init + [last];
      PhaseAttempts(p, kind, init);
      AttemptOneCalls(p, kind, last);
    }
  }

  /**
   * Among routers with distinct ids, one whose clean-up raised is neither
   * deleted nor recorded.
   */
  lemma RouterCleanFailureSkipsDelete(p: Provider, routers: seq<Record>)
    requires Reconcile.DistinctIds(routers)
    ensures var ph := PhaseRun(p, RouterKind, routers);
      forall r :: r in routers && !CleanRouterOutcome(p, r).ok ==>
        DeleteRouter(r.id) !in ph.calls && r.id !in ph.recorded
  {
    PhaseTargets(p, RouterKind, routers);
    PhaseRecorded(p, RouterKind, routers);
  }

  /** All calls are in phase order: servers, routers, subnets, networks. */
  predicate InStageOrder(calls: seq<Call>) {
    forall i, j :: 0 <= i < j < |calls| ==> Stage(KindOf(calls[i])) <= Stage(KindOf(calls[j]))
  }

  lemma AppendStage(s: seq<Call>, t: seq<Call>, k: Kind)
    requires InStageOrder(s) && forall c :: c in s ==> Stage(KindOf(c)) <= Stage(k)
    requires forall c :: c in t ==> KindOf(c) == k
    ensures InStageOrder(s + t) && forall c :: c in s + t ==> Stage(KindOf(c)) <= Stage(k)
  {
    forall i, j | 0 <= i < j < |s + t| ensures Stage(KindOf((s + t)[i])) <= Stage(KindOf((s + t)[j])) {
      if j < |s| {
      } else if i >= |s| {
        assert (s + t)[i] in t && (s + t)[j] in t;
      } else {
        assert (s + t)[i] in s && (s + t)[j] in t;
      }
    }
  }

  /** The selected rows of a kind. */
  function ItemsOf(sel: Selected, kind: Kind): seq<Record> {
    match kind
    case ServerKind => sel.servers
    case RouterKind => sel.routers
    case SubnetKind => sel.subnets
    case NetworkKind => sel.networks
  }

  /** The recorded ids of a kind. */
  function DeletedOf(d: Deleted, kind: Kind): seq<string> {
    match kind
    case ServerKind => d.servers
    case RouterKind => d.routers
    case SubnetKind => d.subnets
    case NetworkKind => d.networks
  }

  lemma AppendThree<T>(a: seq<T>, b: seq<T>, c: seq<T>)
    ensures a + b + c == a + (b + c)
  {
  }

  lemma AppendEmpty<T>(a: seq<T>)
    ensures a + [] == a
  {
  }

  lemma AppendFour(a: seq<Call>, b: seq<Call>, c: seq<Call>, d: seq<Call>, e: seq<Call>)
    ensures a + b + c + d + e == a + (b + c + d + e)
  {
  }

  lemma DeletionRunParts(p: Provider, sel: Selected)
    ensures DeletionRun(p, sel).calls ==
      PhaseRun(p, ServerKind, sel.servers).calls + PhaseRun(p, RouterKind, sel.routers).calls +
      PhaseRun(p, SubnetKind, sel.subnets).calls + PhaseRun(p, NetworkKind, sel.networks).calls
    ensures DeletionRun(p, sel).deleted ==
      Deleted(PhaseRun(p, ServerKind, sel.servers).recorded, PhaseRun(p, RouterKind, sel.routers).recorded,
              PhaseRun(p, SubnetKind, sel.subnets).recorded, PhaseRun(p, NetworkKind, sel.networks).recorded)
  {
  }

  /** A call of the run is a call of the phase of its kind. */
  lemma RunCallsByPhase(p: Provider, sel: Selected)
    ensures forall c :: c in DeletionRun(p, sel).calls <==> c in PhaseRun(p, KindOf(c), ItemsOf(sel, KindOf(c))).calls
  {
    PhaseKinds(p, ServerKind, sel.servers);
    PhaseKinds(p, RouterKind, sel.routers);
    PhaseKinds(p, SubnetKind, sel.subnets);
    PhaseKinds(p, NetworkKind, sel.networks);
  }

  /**
   * The run issues every server call before any router call, every router
   * call before any subnet delete, and every subnet delete before any
   * network delete.
   */
  lemma DeletionOrder(p: Provider, sel: Selected)
    ensures InStageOrder(DeletionRun(p, sel).calls)
  {
    var s := PhaseRun(p, ServerKind, sel.servers);
    var r := PhaseRun(p, RouterKind, sel.routers);
    var n := PhaseRun(p, SubnetKind, sel.subnets);
    var w := PhaseRun(p, NetworkKind, sel.networks);
    PhaseKinds(p, ServerKind, sel.servers);
    PhaseKinds(p, RouterKind, sel.routers);
    PhaseKinds(p, SubnetKind, sel.subnets);
    PhaseKinds(p, NetworkKind, sel.networks);
    AppendStage([], s.calls, ServerKind);
    assert [] + s.calls == s.calls;
    AppendStage(s.calls, r.calls, RouterKind);
    AppendStage(s.calls + r.calls, n.calls, SubnetKind);
    AppendStage(s.calls + r.calls + n.calls, w.calls, NetworkKind);
  }

  lemma DeletedOfRun(p: Provider, sel: Selected, kind: Kind)
    ensures DeletedOf(DeletionRun(p, sel).deleted, kind) == PhaseRun(p, kind, ItemsOf(sel, kind)).recorded
  {
  }

  /** The run records, for one kind, what that kind's phase records. */
  lemma DeletionRecordedKind(p: Provider, sel: Selected, kind: Kind)
    ensures var run := DeletionRun(p, sel);
      (forall x :: x in DeletedOf(run.deleted, kind) <==>
         DeleteCall(kind, x) in run.calls && p.Accepts(DeleteCall(kind, x))) &&
      IsSubsequence(DeletedOf(run.deleted, kind), IdList(ItemsOf(sel, kind)))
  {
    var run := DeletionRun(p, sel);
    var ph := PhaseRun(p, kind, ItemsOf(sel, kind));
    DeletedOfRun(p, sel, kind);
    RunCallsByPhase(p, sel);
    PhaseRecorded(p, kind, ItemsOf(sel, kind));
    PhaseRecordedInOrder(p, kind, ItemsOf(sel, kind));
    forall x ensures DeleteCall(kind, x) in run.calls <==> DeleteCall(kind, x) in ph.calls {
      assert KindOf(DeleteCall(kind, x)) == kind;
    }
  }

  /**
   * For every kind, the run records exactly the ids whose delete call it
   * issued and that returned, in selection order.
   */
  lemma DeletionRecorded(p: Provider, sel: Selected)
    ensures var run := DeletionRun(p, sel);
      forall kind: Kind ::
        (forall x :: x in DeletedOf(run.deleted, kind) <==>
           DeleteCall(kind, x) in run.calls && p.Accepts(DeleteCall(kind, x))) &&
        IsSubsequence(DeletedOf(run.deleted, kind), IdList(ItemsOf(sel, kind)))
  {
    forall kind: Kind {
      DeletionRecordedKind(p, sel, kind);
    }
  }

  /** The scanned rows of a kind. */
  function RowsOf(scan: Scan, kind: Kind): seq<Record> {
    match kind
    case ServerKind => scan.servers
    case RouterKind => scan.routers
    case SubnetKind => scan.subnets
    case NetworkKind => scan.networks
  }

  /** The names never retired for a kind. */
  function ProtectedOf(kind: Kind): seq<string> {
    match kind
    case NetworkKind => ProtectedNetworks
    case SubnetKind => ProtectedSubnets
    case _ => []
  }

  /**
   * End to end: every resource the run tries to delete is a row of the
   * scanned table of its kind that was created before the cutoff, was
   * never flagged absent and is not protected by name.
   */
  lemma CleanupTargetsOnlyRetirable(p: Provider, scan: Scan, now: int, hours: int)
    ensures var run := DeletionRun(p, ResourcesToDelete(scan, now, hours));
      forall c :: c in run.calls && IsResourceDelete(c) ==>
        exists r :: r in RowsOf(scan, KindOf(c)) && c == DeleteCall(KindOf(c), r.id) &&
                    Retirable(r, Cutoff(now, hours), ProtectedOf(KindOf(c)))
  {
    var sel := ResourcesToDelete(scan, now, hours);
    forall c | c in DeletionRun(p, sel).calls && IsResourceDelete(c)
      ensures exists r :: r in RowsOf(scan, KindOf(c)) && c == DeleteCall(KindOf(c), r.id) &&
                          Retirable(r, Cutoff(now, hours), ProtectedOf(KindOf(c)))
    {
      var k := KindOf(c);
      CallInItsPhase(p, sel, c);
      SelectedOfKind(scan, now, hours, k);
      PhaseTargetRetirable(p, k, RowsOf(scan, k), Cutoff(now, hours), ProtectedOf(k), c);
    }
  }

  /** A call of the run belongs to the phase of its own kind. */
  lemma CallInItsPhase(p: Provider, sel: Selected, c: Call)
    requires c in DeletionRun(p, sel).calls
    ensures c in PhaseRun(p, KindOf(c), ItemsOf(sel, KindOf(c))).calls
  {
    RunCallsByPhase(p, sel);
  }

  /** The selected list of a kind is the oldest-first retirable rows of its table. */
  lemma SelectedOfKind(scan: Scan, now: int, hours: int, kind: Kind)
    ensures ItemsOf(ResourcesToDelete(scan, now, hours), kind) ==
            OldestFirst(RowsOf(scan, kind), Cutoff(now, hours), ProtectedOf(kind))
  {
  }

  /** A delete issued by a phase over the selected rows targets one of the retirable rows. */
  lemma PhaseTargetRetirable(p: Provider, kind: Kind, rows: seq<Record>, cutoff: int,
                             protected: seq<string>, c: Call)
    requires c in PhaseRun(p, kind, OldestFirst(rows, cutoff, protected)).calls && IsResourceDelete(c)
    ensures exists r :: r in rows && c == DeleteCall(kind, r.id) && Retirable(r, cutoff, protected)
  {
    var items := OldestFirst(rows, cutoff, protected);
    PhaseTargets(p, kind, items);
    OldestFirstExact(rows, cutoff, protected);
    var r :| r in items && c == DeleteCall(kind, r.id);
    assert r in rows && Retirable(r, cutoff, protected);
  }

  // ---------------------------------------------------------------------
  // Bulk flagging

  /**
   * `UPDATE <kind> SET system_deleted = TRUE, updated_time = NOW() WHERE
   * resource_id = ANY(ids)`; skipped when `ids` is empty.
   */
  function MarkDeleted(t: Table, ids: seq<string>, now: int): Table {
    if ids == [] then t
    else map k | k in t :: if k in ids then t[k].(systemDeleted := true, updated := now) else t[k]
  }

  /**
   * The bulk update removes and adds no row; a row whose id was recorded
   * is flagged deleted and stamped with the update time and keeps every
   * other column; every other row is unchanged; the primary-key invariant
   * is kept.
   */
  lemma MarkDeletedEffect(t: Table, ids: seq<string>, now: int)
    ensures var r := MarkDeleted(t, ids, now);
      r.Keys == t.Keys &&
      (forall k :: k in t && k in ids ==>
         r[k].systemDeleted && r[k].updated == now &&
         r[k].(systemDeleted := t[k].systemDeleted, updated := t[k].updated) == t[k]) &&
      (forall k :: k in t && k !in ids ==> r[k] == t[k]) &&
      (KeysMatch(t) ==> KeysMatch(r))
  {
  }

  // ---------------------------------------------------------------------
  // One loop iteration of each fold

  lemma NetworkReleaseStep(p: Provider, entries: seq<Address>, j: nat)
    requires j < |entries|
    ensures NetworkReleaseCalls(p, entries[..j + 1]) ==
      NetworkReleaseCalls(p, entries[..j]) + (if IsFloating(entries[j]) then ReleaseOne(p, entries[j].addr.value) else [])
  {
    assert entries[..j + 1][..j] == entries[..j];
  }

  lemma ServerReleaseStep(p: Provider, nets: seq<NetworkAddresses>, i: nat)
    requires i < |nets|
    ensures ServerReleaseCalls(p, nets[..i + 1]) == ServerReleaseCalls(p, nets[..i]) + NetworkReleaseCalls(p, nets[i].entries)
  {
    assert nets[..i + 1][..i] == nets[..i];
  }

  lemma DetachAllStep(p: Provider, routerId: string, ports: seq<Port>, i: nat)
    requires i < |ports| && DetachAll(p, routerId, ports[..i]).ok
    ensures DetachAll(p, routerId, ports[..i + 1]) ==
      Outcome(DetachAll(p, routerId, ports[..i]).calls + DetachOne(p, routerId, ports[i]).calls,
              DetachOne(p, routerId, ports[i]).ok)
  {
    assert ports[..i + 1][..i] == ports[..i];
  }

  lemma PhaseRunStep(p: Provider, kind: Kind, items: seq<Record>, i: nat)
    requires i < |items|
    ensures PhaseRun(p, kind, items[..i + 1]) ==
      Phase(PhaseRun(p, kind, items[..i]).calls + AttemptOne(p, kind, items[i]).calls,
            PhaseRun(p, kind, items[..i]).recorded + AttemptOne(p, kind, items[i]).recorded)
  {
    assert items[..i + 1][..i] == items[..i];
  }

  // ---------------------------------------------------------------------
  // The cleaner

  /** Nothing recorded: the result of a dry run. */
  const NothingDeleted := Deleted([], [], [], [])

  /** The cleaner: the inventory it flags and the cloud connection it deletes through. */
  class ResourceCleaner {
    const db: Inventory
    const cloud: CloudGateway

    constructor (db: Inventory, cloud: CloudGateway)
      ensures this.db == db && this.cloud == cloud
    {
      this.db := db;
      this.cloud := cloud;
    }

    /** List the floating IPs and delete the first one with this address; errors are swallowed. */
    method ReleaseAddress(a: string)
      modifies cloud
      ensures cloud.issued == old(cloud.issued) + ReleaseOne(cloud.provider, a)
    {
      var listed := cloud.Send(ListFloatingIps);
      if !listed {
        return;
      }
      var ips := cloud.provider.floatingIps;
      var i := 0;
      while i < |ips|
        invariant 0 <= i <= |ips|
        invariant forall j :: 0 <= j < i ==> ips[j].address != a
        invariant cloud.issued == old(cloud.issued) + [ListFloatingIps]
      {
        if ips[i].address == a {
          assert FirstWithAddress(ips, a) == Some(ips[i]);
          var _ := cloud.Send(DeleteFloatingIp(ips[i].id));
          return;
        }
        i := i + 1;
      }
    }

    /** The addresses of one network of a server. */
    method ReleaseNetwork(entries: seq<Address>)
      modifies cloud
      ensures cloud.issued == old(cloud.issued) + NetworkReleaseCalls(cloud.provider, entries)
    {
      ghost var p := cloud.provider;
      var j := 0;
      while j < |entries|
        invariant 0 <= j <= |entries|
        invariant cloud.issued == old(cloud.issued) + NetworkReleaseCalls(p, entries[..j])
      {
        var e := entries[j];
        NetworkReleaseStep(p, entries, j);
        if e.ipType == Some(FloatingType) {
          match e.addr
          case Some(a) =>
            if a != "" {
              ReleaseAddress(a);
            }
          case None =>
        }
        j := j + 1;
      }
      assert entries[..j] == entries;
    }

    /**
     * `release_floating_ips`: release every floating address of the server,
     * network by network. A dry run only logs, so it issues nothing.
     */
    method ReleaseFloatingIps(server: Record, dryRun: bool)
      modifies cloud
      ensures cloud.issued == old(cloud.issued) + (if dryRun then [] else ReleaseCalls(cloud.provider, server))
    {
      var nets := AddressesOf(server);
      if nets == [] || dryRun {
        return;
      }
      ghost var p := cloud.provider;
      var i := 0;
      while i < |nets|
        invariant 0 <= i <= |nets|
        invariant cloud.issued == old(cloud.issued) + ServerReleaseCalls(p, nets[..i])
      {
        ServerReleaseStep(p, nets, i);
        ReleaseNetwork(nets[i].entries);
        i := i + 1;
      }
      assert nets[..i] == nets;
    }

    /** Detach the interface ports of a router in order; `ok` is false once one raised. */
    method DetachInterfaces(id: string, ports: seq<Port>) returns (ok: bool)
      modifies cloud
      ensures ok == DetachAll(cloud.provider, id, ports).ok
      ensures cloud.issued == old(cloud.issued) + DetachAll(cloud.provider, id, ports).calls
    {
      ghost var p := cloud.provider;
      var i := 0;
      while i < |ports|
        invariant 0 <= i <= |ports|
        invariant DetachAll(p, id, ports[..i]).ok
        invariant cloud.issued == old(cloud.issued) + DetachAll(p, id, ports[..i]).calls
      {
        var port := ports[i];
        DetachAllStep(p, id, ports, i);
        if port.deviceOwner == RouterInterfaceOwner {
          if port.fixedIpSubnets == [] {
            DetachFailurePersists(p, id, ports, i + 1);
            return false;
          }
          var detached := cloud.Send(RemoveInterface(id, port.fixedIpSubnets[0]));
          if !detached {
            DetachFailurePersists(p, id, ports, i + 1);
            return false;
          }
        }
        i := i + 1;
      }
      assert ports[..i] == ports;
      return true;
    }

    /** `clean_router`: `ok` is false when it raised. A dry run only logs. */
    method CleanRouter(router: Record, dryRun: bool) returns (ok: bool)
      modifies cloud
      ensures dryRun ==> ok && cloud.issued == old(cloud.issued)
      ensures !dryRun ==> ok == CleanRouterOutcome(cloud.provider, router).ok &&
                          cloud.issued == old(cloud.issued) + CleanRouterOutcome(cloud.provider, router).calls
    {
      if dryRun {
        return true;
      }
      var id := router.id;
      if GatewayOf(router).Truthy() {
        var cleared := cloud.Send(ClearGateway(id));
        if !cleared {
          return false;
        }
      }
      var listed := cloud.Send(ListRouterPorts(id));
      if !listed {
        return false;
      }
      ok := DetachInterfaces(id, cloud.provider.PortsOf(id));
    }

    /** One server: release its floating IPs (errors there are swallowed), then delete it. */
    method RetireServer(server: Record) returns (ok: bool)
      modifies cloud
      ensures cloud.issued == old(cloud.issued) + AttemptOne(cloud.provider, ServerKind, server).calls
      ensures AttemptOne(cloud.provider, ServerKind, server).recorded == if ok then [server.id] else []
    {
      ReleaseFloatingIps(server, false);
      ok := cloud.Send(DeleteServer(server.id));
    }

    /** Phase 1: every server in order; `ids` are those whose delete returned. */
    method DeleteServers(servers: seq<Record>) returns (ids: seq<string>)
      modifies cloud
      ensures cloud.issued == old(cloud.issued) + PhaseRun(cloud.provider, ServerKind, servers).calls
      ensures ids == PhaseRun(cloud.provider, ServerKind, servers).recorded
    {
      ghost var p := cloud.provider;
      ids := [];
      var i := 0;
      while i < |servers|
        invariant 0 <= i <= |servers|
        invariant cloud.issued == old(cloud.issued) + PhaseRun(p, ServerKind, servers[..i]).calls
        invariant ids == PhaseRun(p, ServerKind, servers[..i]).recorded
      {
        ghost var prev := PhaseRun(p, ServerKind, servers[..i]);
        ghost var step := AttemptOne(p, ServerKind, servers[i]);
        PhaseRunStep(p, ServerKind, servers, i);
        var ok := RetireServer(servers[i]);
        AppendThree(old(cloud.issued), prev.calls, step.calls);
        if ok {
          ids := ids + [servers[i].id];
        } else {
          AppendEmpty(prev.recorded);
        }
        i := i + 1;
      }
      assert servers[..i] == servers;
    }

    /** One router: clean it, then delete it; a router whose clean-up raised is skipped. */
    method RetireRouter(router: Record) returns (ok: bool)
      modifies cloud
      ensures cloud.issued == old(cloud.issued) + AttemptOne(cloud.provider, RouterKind, router).calls
      ensures AttemptOne(cloud.provider, RouterKind, router).recorded == if ok then [router.id] else []
    {
      var cleaned := CleanRouter(router, false);
      if !cleaned {
        return false;
      }
      ok := cloud.Send(DeleteRouter(router.id));
    }

    /** Phase 2: every router in order; `ids` are those whose delete returned. */
    method DeleteRouters(routers: seq<Record>) returns (ids: seq<string>)
      modifies cloud
      ensures cloud.issued == old(cloud.issued) + PhaseRun(cloud.provider, RouterKind, routers).calls
      ensures ids == PhaseRun(cloud.provider, RouterKind, routers).recorded
    {
      ghost var p := cloud.provider;
      ids := [];
      var i := 0;
      while i < |routers|
        invariant 0 <= i <= |routers|
        invariant cloud.issued == old(cloud.issued) + PhaseRun(p, RouterKind, routers[..i]).calls
        invariant ids == PhaseRun(p, RouterKind, routers[..i]).recorded
      {
        ghost var prev := PhaseRun(p, RouterKind, routers[..i]);
        ghost var step := AttemptOne(p, RouterKind, routers[i]);
        PhaseRunStep(p, RouterKind, routers, i);
        var ok := RetireRouter(routers[i]);
        AppendThree(old(cloud.issued), prev.calls, step.calls);
        if ok {
          ids := ids + [routers[i].id];
        } else {
          AppendEmpty(prev.recorded);
        }
        i := i + 1;
      }
      assert routers[..i] == routers;
    }

    /** Phase 3 (`kind` subnets) or 4 (networks): one delete call per item. */
    method DeletePlain(kind: Kind, items: seq<Record>) returns (ids: seq<string>)
      requires kind == SubnetKind || kind == NetworkKind
      modifies cloud
      ensures cloud.issued == old(cloud.issued) + PhaseRun(cloud.provider, kind, items).calls
      ensures ids == PhaseRun(cloud.provider, kind, items).recorded
    {
      ghost var p := cloud.provider;
      ids := [];
      var i := 0;
      while i < |items|
        invariant 0 <= i <= |items|
        invariant cloud.issued == old(cloud.issued) + PhaseRun(p, kind, items[..i]).calls
        invariant ids == PhaseRun(p, kind, items[..i]).recorded
      {
        var item := items[i];
        ghost var prev := PhaseRun(p, kind, items[..i]);
        ghost var step := AttemptOne(p, kind, item);
        PhaseRunStep(p, kind, items, i);
        var ok := cloud.Send(DeleteCall(kind, item.id));
        AppendThree(old(cloud.issued), prev.calls, step.calls);
        if ok {
          ids := ids + [item.id];
        } else {
          AppendEmpty(prev.recorded);
        }
        i := i + 1;
      }
      assert items[..i] == items;
    }

    /** The four deletion phases in order. */
    method RunPhases(sel: Selected) returns (deleted: Deleted)
      modifies cloud
      ensures deleted == DeletionRun(cloud.provider, sel).deleted
      ensures cloud.issued == old(cloud.issued) + DeletionRun(cloud.provider, sel).calls
    {
      ghost var p := cloud.provider;
      ghost var s := PhaseRun(p, ServerKind, sel.servers);
      ghost var r := PhaseRun(p, RouterKind, sel.routers);
      ghost var n := PhaseRun(p, SubnetKind, sel.subnets);
      ghost var w := PhaseRun(p, NetworkKind, sel.networks);
      ghost var i0 := cloud.issued;
      var servers := DeleteServers(sel.servers);
      ghost var i1 := cloud.issued;
      var routers := DeleteRouters(sel.routers);
      ghost var i2 := cloud.issued;
      var subnets := DeletePlain(SubnetKind, sel.subnets);
      ghost var i3 := cloud.issued;
      var networks := DeletePlain(NetworkKind, sel.networks);
      deleted := Deleted(servers, routers, subnets, networks);
      DeletionRunParts(p, sel);
      AppendFour(i0, s.calls, r.calls, n.calls, w.calls);
    }

    /** The bulk update: flag each kind's recorded ids, skipping a kind with none. */
    method FlagDeleted(deleted: Deleted, now: int)
      requires db.Valid()
      modifies db`servers, db`routers, db`subnets, db`networks
      ensures db.Valid()
      ensures db.servers == MarkDeleted(old(db.servers), deleted.servers, now)
      ensures db.routers == MarkDeleted(old(db.routers), deleted.routers, now)
      ensures db.subnets == MarkDeleted(old(db.subnets), deleted.subnets, now)
      ensures db.networks == MarkDeleted(old(db.networks), deleted.networks, now)
    {
      MarkDeletedEffect(db.servers, deleted.servers, now);
      MarkDeletedEffect(db.routers, deleted.routers, now);
      MarkDeletedEffect(db.subnets, deleted.subnets, now);
      MarkDeletedEffect(db.networks, deleted.networks, now);
      if deleted.servers != [] {
        db.servers := MarkDeleted(db.servers, deleted.servers, now);
      }
      if deleted.routers != [] {
        db.routers := MarkDeleted(db.routers, deleted.routers, now);
      }
      if deleted.subnets != [] {
        db.subnets := MarkDeleted(db.subnets, deleted.subnets, now);
      }
      if deleted.networks != [] {
        db.networks := MarkDeleted(db.networks, deleted.networks, now);
      }
    }

    /**
     * `delete_resources`: servers, routers, subnets, networks, then one
     * bulk flag update per kind that recorded anything. A dry run issues
     * no call and writes nothing.
     */
    method DeleteResources(sel: Selected, dryRun: bool, now: int) returns (deleted: Deleted)
      requires db.Valid()
      modifies cloud, db`servers, db`routers, db`subnets, db`networks
      ensures db.Valid()
      ensures dryRun ==>
        deleted == NothingDeleted && cloud.issued == old(cloud.issued) &&
        db.servers == old(db.servers) && db.routers == old(db.routers) &&
        db.subnets == old(db.subnets) && db.networks == old(db.networks)
      ensures !dryRun ==>
        deleted == DeletionRun(cloud.provider, sel).deleted &&
        cloud.issued == old(cloud.issued) + DeletionRun(cloud.provider, sel).calls &&
        db.servers == MarkDeleted(old(db.servers), deleted.servers, now) &&
        db.routers == MarkDeleted(old(db.routers), deleted.routers, now) &&
        db.subnets == MarkDeleted(old(db.subnets), deleted.subnets, now) &&
        db.networks == MarkDeleted(old(db.networks), deleted.networks, now)
    {
      if dryRun {
        return NothingDeleted;
      }
      deleted := RunPhases(sel);
      FlagDeleted(deleted, now);
    }
  }
}
