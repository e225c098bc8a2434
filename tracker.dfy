/**
 * ResourceTracker: one reconciliation run of every table against the
 * provider's listings, inside one database transaction.
 */
module Tracker {
  import opened Wrappers
  import opened Inventory
  import opened Listing
  import opened Reconcile
  import opened Reservations

  /** What the listing calls returned for one run. */
  datatype Listings = Listings(
    servers: seq<ServerObs>, networks: seq<NetworkObs>, routers: seq<RouterObs>,
    subnets: seq<SubnetObs>, leases: seq<LeaseObs>)

  /** The six tables as one value: what a transaction commits or rolls back to. */
  datatype Snapshot = Snapshot(
    servers: Table, networks: Table, routers: Table, subnets: Table,
    gpuLeases: Table, reservations: ReservationTable)

  /** The reservation ids listed under any of the leases. */
  function AllReservationIds(leases: seq<LeaseObs>): set<string>
    decreases |leases|
  {
    if leases == [] then {}
    else
      var last := leases[|leases| - 1];
      AllReservationIds(leases[..|leases| - 1]) + ReservationIds(ReservationRecords(last.id, last.reservations))
  }

  /**
   * One iteration of the lease loop: upsert the lease row into gpu_leases,
   * then reconcile that lease's reservations.
   */
  function LeaseStep(existing: set<string>, lm: Table, rm: ReservationTable, lease: LeaseObs, now: int)
    : (res: Option<(Table, ReservationTable)>)
    requires existing <= lm.Keys
    ensures res.Some? ==> lm.Keys <= res.value.0.Keys
  {
    match UpsertOne(existing, lm, LeaseRecord(lease, now))
    case None => None
    case Some(lm') =>
      match ReservationsUpserted(rm, lease.id, ReservationRecords(lease.id, lease.reservations))
      case None => None
      case Some(rm') => Some((lm', rm'))
  }

  /** The lease loop, lease by lease in listing order. */
  function LeasesUpserted(baseLeases: Table, baseRes: ReservationTable, leases: seq<LeaseObs>, now: int)
    : (res: Option<(Table, ReservationTable)>)
    ensures res.Some? ==> baseLeases.Keys <= res.value.0.Keys
    decreases |leases|
  {
    if leases == [] then Some((baseLeases, baseRes))
    else
      match LeasesUpserted(baseLeases, baseRes, leases[..|leases| - 1], now)
      case None => None
      case Some((lm, rm)) => LeaseStep(baseLeases.Keys, lm, rm, leases[|leases| - 1], now)
  }

  /** update_gpu_leases: the lease loop, then absence marking of the leases. */
  function LeasesReconciled(baseLeases: Table, baseRes: ReservationTable, leases: seq<LeaseObs>, now: int)
    : Option<(Table, ReservationTable)>
  {
    match LeasesUpserted(baseLeases, baseRes, leases, now)
    case None => None
    case Some((lm, rm)) =>
      Some((MarkAbsent(lm, baseLeases.Keys - Ids(LeaseRecords(leases, now)), now), rm))
  }

  /** update_resources: every kind with the same pass time; `None` when any step raises. */
  function Pass(s: Snapshot, l: Listings, now: int): Option<Snapshot> {
    match (Reconciled(s.servers, ServerRecords(l.servers, now), now),
           Reconciled(s.networks, NetworkRecords(l.networks, now), now),
           Reconciled(s.routers, RouterRecords(l.routers, now), now),
           Reconciled(s.subnets, SubnetRecords(l.subnets, now), now),
           LeasesReconciled(s.gpuLeases, s.reservations, l.leases, now))
    case (Some(sv), Some(nw), Some(rt), Some(sn), Some((ls, rs))) => Some(Snapshot(sv, nw, rt, sn, ls, rs))
    case _ => None
  }

  /** A pass commits exactly when every kind's step succeeds, and then holds each step's table. */
  lemma PassParts(s: Snapshot, l: Listings, now: int)
    ensures var sv := Reconciled(s.servers, ServerRecords(l.servers, now), now);
      var nw := Reconciled(s.networks, NetworkRecords(l.networks, now), now);
      var rt := Reconciled(s.routers, RouterRecords(l.routers, now), now);
      var sn := Reconciled(s.subnets, SubnetRecords(l.subnets, now), now);
      var ls := LeasesReconciled(s.gpuLeases, s.reservations, l.leases, now);
      (Pass(s, l, now).Some? <==> sv.Some? && nw.Some? && rt.Some? && sn.Some? && ls.Some?) &&
      (Pass(s, l, now).Some? ==>
         Pass(s, l, now).value == Snapshot(sv.value, nw.value, rt.value, sn.value, ls.value.0, ls.value.1))
  {
  }

  /**
   * The transaction commits exactly when no id new to its table is listed
   * twice among the servers, networks, routers or subnets and the lease step
   * succeeds; it then holds the generic pass of each of those four kinds.
   */
  lemma PassSucceeds(s: Snapshot, l: Listings, now: int)
    ensures Pass(s, l, now).Some? <==>
      NoNewDuplicates(s.servers.Keys, ServerRecords(l.servers, now)) &&
      NoNewDuplicates(s.networks.Keys, NetworkRecords(l.networks, now)) &&
      NoNewDuplicates(s.routers.Keys, RouterRecords(l.routers, now)) &&
      NoNewDuplicates(s.subnets.Keys, SubnetRecords(l.subnets, now)) &&
      LeasesReconciled(s.gpuLeases, s.reservations, l.leases, now).Some?
    ensures Pass(s, l, now).Some? ==>
      NoNewDuplicates(s.gpuLeases.Keys, LeaseRecords(l.leases, now))
  {
    PassParts(s, l, now);
    ReconcileSucceeds(s.servers, ServerRecords(l.servers, now), now);
    ReconcileSucceeds(s.networks, NetworkRecords(l.networks, now), now);
    ReconcileSucceeds(s.routers, RouterRecords(l.routers, now), now);
    ReconcileSucceeds(s.subnets, SubnetRecords(l.subnets, now), now);
    if Pass(s, l, now).Some? {
      LeasesTable(s.gpuLeases, s.reservations, l.leases, now);
      ReconcileSucceeds(s.gpuLeases, LeaseRecords(l.leases, now), now);
    }
  }

  /** A pass that commits keeps every row stored under its own id. */
  lemma PassKeysMatch(s: Snapshot, l: Listings, now: int)
    requires KeysMatch(s.servers) && KeysMatch(s.networks) && KeysMatch(s.routers)
    requires KeysMatch(s.subnets) && KeysMatch(s.gpuLeases)
    requires Pass(s, l, now).Some?
    ensures var t := Pass(s, l, now).value;
      KeysMatch(t.servers) && KeysMatch(t.networks) && KeysMatch(t.routers) &&
      KeysMatch(t.subnets) && KeysMatch(t.gpuLeases)
  {
    ReconcileKeysMatch(s.servers, ServerRecords(l.servers, now), now);
    ReconcileKeysMatch(s.networks, NetworkRecords(l.networks, now), now);
    ReconcileKeysMatch(s.routers, RouterRecords(l.routers, now), now);
    ReconcileKeysMatch(s.subnets, SubnetRecords(l.subnets, now), now);
    LeasesTable(s.gpuLeases, s.reservations, l.leases, now);
    ReconcileKeysMatch(s.gpuLeases, LeaseRecords(l.leases, now), now);
  }

  lemma LeaseRecordsPrefix(leases: seq<LeaseObs>, n: nat, now: int)
    requires n <= |leases|
    ensures LeaseRecords(leases[..n], now) == LeaseRecords(leases, now)[..n]
  {
  }

  lemma {:induction false} LeasesFailurePersists(baseLeases: Table, baseRes: ReservationTable,
                                                 leases: seq<LeaseObs>, n: nat, now: int)
    requires n <= |leases| && LeasesUpserted(baseLeases, baseRes, leases[..n], now).None?
    ensures LeasesUpserted(baseLeases, baseRes, leases, now).None?
    decreases |leases| - n
  {
    if n < |leases| {
      assert leases[..n + 1][..n] == leases[..n];
      LeasesFailurePersists(baseLeases, baseRes, leases, n + 1, now);
    } else {
      assert leases[..n] == leases;
    }
  }

  /** The gpu_leases table goes through exactly the generic pass. */
  lemma {:induction false} LeasesUpsertedTable(baseLeases: Table, baseRes: ReservationTable,
                                               leases: seq<LeaseObs>, now: int)
    requires LeasesUpserted(baseLeases, baseRes, leases, now).Some?
    ensures Upserted(baseLeases, LeaseRecords(leases, now)) == Some(LeasesUpserted(baseLeases, baseRes, leases, now).value.0)
    decreases |leases|
  {
    if leases != [] {
      var n := |leases| - 1;
      var prev := LeasesUpserted(baseLeases, baseRes, leases[..n], now);
      assert prev.Some?;
      var lm, rm := prev.value.0, prev.value.1;
      LeasesUpsertedTable(baseLeases, baseRes, leases[..n], now);
      var listing := LeaseRecords(leases, now);
      LeaseRecordsPrefix(leases, n, now);
      assert LeasesUpserted(baseLeases, baseRes, leases, now) == LeaseStep(baseLeases.Keys, lm, rm, leases[n], now);
      LeaseStepUpserted(baseLeases, listing, lm, rm, leases[n], now);
    }
  }

  /** The last lease's row goes through the same upsert step as the generic pass. */
  lemma LeaseStepUpserted(baseLeases: Table, listing: seq<Record>, lm: Table, rm: ReservationTable,
                          lease: LeaseObs, now: int)
    requires listing != [] && Upserted(baseLeases, listing[..|listing| - 1]) == Some(lm)
    requires listing[|listing| - 1] == LeaseRecord(lease, now)
    requires LeaseStep(baseLeases.Keys, lm, rm, lease, now).Some?
    ensures Upserted(baseLeases, listing) == Some(LeaseStep(baseLeases.Keys, lm, rm, lease, now).value.0)
  {
  }

  /**
   * Every generic guarantee holds for gpu_leases: its table after
   * update_gpu_leases is the generic pass over the lease rows.
   */
  lemma LeasesTable(baseLeases: Table, baseRes: ReservationTable, leases: seq<LeaseObs>, now: int)
    requires LeasesReconciled(baseLeases, baseRes, leases, now).Some?
    ensures Reconciled(baseLeases, LeaseRecords(leases, now), now) ==
            Some(LeasesReconciled(baseLeases, baseRes, leases, now).value.0)
  {
    LeasesUpsertedTable(baseLeases, baseRes, leases, now);
  }

  /**
   * Reservations are only added and updated: the keys grow by the listed ids
   * and every reservation no listed lease mentions is left unchanged.
   */
  lemma {:induction false} LeasesReservations(baseLeases: Table, baseRes: ReservationTable,
                                              leases: seq<LeaseObs>, now: int)
    requires LeasesUpserted(baseLeases, baseRes, leases, now).Some?
    ensures var rm := LeasesUpserted(baseLeases, baseRes, leases, now).value.1;
      rm.Keys == baseRes.Keys + AllReservationIds(leases) &&
      forall k :: k in baseRes && k !in AllReservationIds(leases) ==> rm[k] == baseRes[k]
    decreases |leases|
  {
    if leases != [] {
      var n := |leases| - 1;
      var lease := leases[n];
      LeasesReservations(baseLeases, baseRes, leases[..n], now);
      var rm := LeasesUpserted(baseLeases, baseRes, leases[..n], now).value.1;
      var listing := ReservationRecords(lease.id, lease.reservations);
      ReservationsKeys(rm, lease.id, listing);
      forall k | k in baseRes && k !in AllReservationIds(leases)
        ensures ReservationsUpserted(rm, lease.id, listing).value[k] == baseRes[k]
      {
        ReservationsUnlisted(rm, lease.id, listing, k);
      }
    }
  }

  /**
   * Listing the same cloud objects at another time yields rows with the same
   * ids, so a later pass over them is a re-listing in the sense of
   * ReconcileIdempotent.
   */
  lemma RelistedIds(l: Listings, t1: int, t2: int)
    ensures Ids(ServerRecords(l.servers, t2)) == Ids(ServerRecords(l.servers, t1))
    ensures Ids(NetworkRecords(l.networks, t2)) == Ids(NetworkRecords(l.networks, t1))
    ensures Ids(RouterRecords(l.routers, t2)) == Ids(RouterRecords(l.routers, t1))
    ensures Ids(SubnetRecords(l.subnets, t2)) == Ids(SubnetRecords(l.subnets, t1))
    ensures Ids(LeaseRecords(l.leases, t2)) == Ids(LeaseRecords(l.leases, t1))
  {
  }

  /** A committed pass removes no row from any table and keeps every stored absence stamp. */
  lemma PassMonotone(s: Snapshot, l: Listings, now: int)
    requires Pass(s, l, now).Some?
    ensures var t := Pass(s, l, now).value;
      s.servers.Keys <= t.servers.Keys && s.networks.Keys <= t.networks.Keys &&
      s.routers.Keys <= t.routers.Keys && s.subnets.Keys <= t.subnets.Keys &&
      s.gpuLeases.Keys <= t.gpuLeases.Keys && s.reservations.Keys <= t.reservations.Keys &&
      (forall k :: k in s.servers && s.servers[k].firstNotSeen.Some? ==>
         t.servers[k].firstNotSeen == s.servers[k].firstNotSeen) &&
      (forall k :: k in s.networks && s.networks[k].firstNotSeen.Some? ==>
         t.networks[k].firstNotSeen == s.networks[k].firstNotSeen) &&
      (forall k :: k in s.routers && s.routers[k].firstNotSeen.Some? ==>
         t.routers[k].firstNotSeen == s.routers[k].firstNotSeen) &&
      (forall k :: k in s.subnets && s.subnets[k].firstNotSeen.Some? ==>
         t.subnets[k].firstNotSeen == s.subnets[k].firstNotSeen) &&
      (forall k :: k in s.gpuLeases && s.gpuLeases[k].firstNotSeen.Some? ==>
         t.gpuLeases[k].firstNotSeen == s.gpuLeases[k].firstNotSeen)
  {
    ReconcileKeys(s.servers, ServerRecords(l.servers, now), now);
    ReconcileKeys(s.networks, NetworkRecords(l.networks, now), now);
    ReconcileKeys(s.routers, RouterRecords(l.routers, now), now);
    ReconcileKeys(s.subnets, SubnetRecords(l.subnets, now), now);
    ReconcileStable(s.servers, ServerRecords(l.servers, now), now);
    ReconcileStable(s.networks, NetworkRecords(l.networks, now), now);
    ReconcileStable(s.routers, RouterRecords(l.routers, now), now);
    ReconcileStable(s.subnets, SubnetRecords(l.subnets, now), now);
    LeasesTable(s.gpuLeases, s.reservations, l.leases, now);
    ReconcileKeys(s.gpuLeases, LeaseRecords(l.leases, now), now);
    ReconcileStable(s.gpuLeases, LeaseRecords(l.leases, now), now);
    LeasesReservations(s.gpuLeases, s.reservations, l.leases, now);
  }

  class ResourceTracker {
    const db: Inventory

    constructor (db: Inventory)
      ensures this.db == db
    {
      this.db := db;
    }

    method UpdateServers(servers: seq<ServerObs>, now: int) returns (ok: bool)
      modifies db`servers
      ensures var r := Reconciled(old(db.servers), ServerRecords(servers, now), now);
        ok == r.Some? && (ok ==> db.servers == r.value)
    {
      var t;
      ok, t := SyncTable(db.servers, ServerRecords(servers, now), now);
      db.servers := t;
    }

    method UpdateNetworks(networks: seq<NetworkObs>, now: int) returns (ok: bool)
      modifies db`networks
      ensures var r := Reconciled(old(db.networks), NetworkRecords(networks, now), now);
        ok == r.Some? && (ok ==> db.networks == r.value)
    {
      var t;
      ok, t := SyncTable(db.networks, NetworkRecords(networks, now), now);
      db.networks := t;
    }

    method UpdateRouters(routers: seq<RouterObs>, now: int) returns (ok: bool)
      modifies db`routers
      ensures var r := Reconciled(old(db.routers), RouterRecords(routers, now), now);
        ok == r.Some? && (ok ==> db.routers == r.value)
    {
      var t;
      ok, t := SyncTable(db.routers, RouterRecords(routers, now), now);
      db.routers := t;
    }

    method UpdateSubnets(subnets: seq<SubnetObs>, now: int) returns (ok: bool)
      modifies db`subnets
      ensures var r := Reconciled(old(db.subnets), SubnetRecords(subnets, now), now);
        ok == r.Some? && (ok ==> db.subnets == r.value)
    {
      var t;
      ok, t := SyncTable(db.subnets, SubnetRecords(subnets, now), now);
      db.subnets := t;
    }

    method UpdateGpuLeaseReservations(leaseId: string, reservations: seq<ReservationObs>) returns (ok: bool)
      modifies db`reservations
      ensures var r := ReservationsUpserted(old(db.reservations), leaseId, ReservationRecords(leaseId, reservations));
        ok == r.Some? && (ok ==> db.reservations == r.value)
    {
      var listing := ReservationRecords(leaseId, reservations);
      var existing := LeaseReservationIds(db.reservations, leaseId);
      ghost var base := db.reservations;
      var i := 0;
      while i < |listing|
        invariant 0 <= i <= |listing|
        invariant ReservationsUpserted(base, leaseId, listing[..i]) == Some(db.reservations)
      {
        var r := listing[i];
        ReservationsStep(base, leaseId, listing, i, db.reservations);
        if r.id in existing {
          db.reservations := db.reservations[r.id := RefreshReservation(db.reservations[r.id], r)];
        } else if r.id in db.reservations {
          // INSERT of an id stored under another lease or inserted earlier: key violation
          ReservationsFailurePersists(base, leaseId, listing, i + 1);
          return false;
        } else {
          db.reservations := db.reservations[r.id := r];
        }
        i := i + 1;
      }
      assert listing[..i] == listing;
      ok := true;
    }

    /** The body of the lease loop for one lease. */
    method UpdateGpuLease(existing: set<string>, lease: LeaseObs, now: int) returns (ok: bool)
      requires existing <= db.gpuLeases.Keys
      modifies db`gpuLeases, db`reservations
      ensures var r := LeaseStep(existing, old(db.gpuLeases), old(db.reservations), lease, now);
        ok == r.Some? && (ok ==> db.gpuLeases == r.value.0 && db.reservations == r.value.1)
    {
      var rec := LeaseRecord(lease, now);
      if rec.id in existing {
        db.gpuLeases := db.gpuLeases[rec.id := Refresh(db.gpuLeases[rec.id], rec)];
      } else if rec.id in db.gpuLeases {
        // a second INSERT of the same new lease id: the primary key rejects it
        return false;
      } else {
        db.gpuLeases := db.gpuLeases[rec.id := Inserted(rec)];
      }
      ok := UpdateGpuLeaseReservations(lease.id, lease.reservations);
    }

    method UpdateGpuLeases(leases: seq<LeaseObs>, now: int) returns (ok: bool)
      modifies db`gpuLeases, db`reservations
      ensures var r := LeasesReconciled(old(db.gpuLeases), old(db.reservations), leases, now);
        ok == r.Some? && (ok ==> db.gpuLeases == r.value.0 && db.reservations == r.value.1)
    {
      ghost var baseLeases, baseRes := db.gpuLeases, db.reservations;
      var existing := db.gpuLeases.Keys;
      var current: set<string> := {};
      var i := 0;
      while i < |leases|
        invariant 0 <= i <= |leases|
        invariant LeasesUpserted(baseLeases, baseRes, leases[..i], now) == Some((db.gpuLeases, db.reservations))
        invariant current == set j | 0 <= j < i :: leases[j].id
      {
        assert leases[..i + 1][..i] == leases[..i];
        current := current + {leases[i].id};
        ok := UpdateGpuLease(existing, leases[i], now);
        if !ok {
          LeasesFailurePersists(baseLeases, baseRes, leases, i + 1, now);
          return;
        }
        i := i + 1;
      }
      assert leases[..i] == leases;
      assert current == Ids(LeaseRecords(leases, now));
      db.gpuLeases := MarkAbsent(db.gpuLeases, existing - current, now);
      ok := true;
    }

    /**
     * One transaction over all kinds with one pass time: commit when every
     * step succeeds, otherwise roll every table back. `fetched` is `None`
     * when the listing calls raised, before the transaction began.
     */
    method UpdateResources(fetched: Option<Listings>, now: int) returns (ok: bool)
      requires db.Valid()
      modifies db`servers, db`networks, db`routers, db`subnets, db`gpuLeases, db`reservations
      ensures db.Valid()
      ensures var before := Snapshot(old(db.servers), old(db.networks), old(db.routers),
                                     old(db.subnets), old(db.gpuLeases), old(db.reservations));
        var after := Snapshot(db.servers, db.networks, db.routers, db.subnets, db.gpuLeases, db.reservations);
        (ok <==> fetched.Some? && Pass(before, fetched.value, now).Some?) &&
        (ok ==> after == Pass(before, fetched.value, now).value) &&
        (!ok ==> after == before)
    {
      if fetched.None? {
        return false;
      }
      var l := fetched.value;
      var saved := Snapshot(db.servers, db.networks, db.routers, db.subnets, db.gpuLeases, db.reservations);
      ok := UpdateServers(l.servers, now);
      if ok { ok := UpdateNetworks(l.networks, now); }
      if ok { ok := UpdateRouters(l.routers, now); }
      if ok { ok := UpdateSubnets(l.subnets, now); }
      if ok { ok := UpdateGpuLeases(l.leases, now); }
      PassParts(saved, l, now);
      if ok {
        PassKeysMatch(saved, l, now);
      } else {
        // rollback
        db.servers, db.networks, db.routers := saved.servers, saved.networks, saved.routers;
        db.subnets, db.gpuLeases, db.reservations := saved.subnets, saved.gpuLeases, saved.reservations;
      }
    }
  }
}
