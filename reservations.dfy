/**
 * The reservation pass that update_gpu_lease_reservations runs for one lease:
 * snapshot the reservation ids stored for that lease, then UPDATE each listed
 * reservation whose id is in the snapshot and INSERT every other one. There is
 * no absence marking: stored reservations the listing omits stay as they are.
 * An INSERT of an id already in the table (a reservation stored under another
 * lease, or one inserted earlier in this pass) violates the primary key.
 */
module Reservations {
  import opened Wrappers
  import opened Inventory

  /** `SELECT reservation_id FROM gpu_lease_reservations WHERE lease_id = %s`. */
  function LeaseReservationIds(t: ReservationTable, leaseId: string): set<string> {
    set k | k in t && t[k].leaseId == leaseId
  }

  function ReservationIds(listing: seq<Reservation>): set<string> {
    set i | 0 <= i < |listing| :: listing[i].id
  }

  /**
   * The UPDATE of a known reservation: it sets status, updated time, the two
   * flags, properties, network and host bounds; the lease, the reserved
   * resource and the created time keep their stored values.
   */
  function RefreshReservation(stored: Reservation, seen: Reservation): Reservation {
    seen.(leaseId := stored.leaseId, resourceId := stored.resourceId,
          resourceType := stored.resourceType, created := stored.created)
  }

  function UpsertReservation(existing: set<string>, m: ReservationTable, r: Reservation): (res: Option<ReservationTable>)
    requires existing <= m.Keys
    ensures res.Some? ==> m.Keys <= res.value.Keys
  {
    if r.id in existing then Some(m[r.id := RefreshReservation(m[r.id], r)])
    else if r.id in m then None
    else Some(m[r.id := r])
  }

  /** The reservation table after one lease's pass; `None` on a key violation. */
  function ReservationsUpserted(base: ReservationTable, leaseId: string, listing: seq<Reservation>)
    : (res: Option<ReservationTable>)
    ensures res.Some? ==> base.Keys <= res.value.Keys
    decreases |listing|
  {
    if listing == [] then Some(base)
    else
      match ReservationsUpserted(base, leaseId, listing[..|listing| - 1])
      case None => None
      case Some(m) => UpsertReservation(LeaseReservationIds(base, leaseId), m, listing[|listing| - 1])
  }

  lemma ReservationIdsSnoc(listing: seq<Reservation>)
    requires listing != []
    ensures ReservationIds(listing) == ReservationIds(listing[..|listing| - 1]) + {listing[|listing| - 1].id}
  {
    var p := listing[..|listing| - 1];
    forall k | k in ReservationIds(listing) ensures k in ReservationIds(p) + {listing[|listing| - 1].id} {
      var i :| 0 <= i < |listing| && listing[i].id == k;
      if i < |p| { assert p[i] == listing[i]; }
    }
    forall k | k in ReservationIds(p) ensures k in ReservationIds(listing) {
      var i :| 0 <= i < |p| && p[i].id == k;
      assert listing[i] == p[i];
    }
  }

  lemma {:induction false} ReservationsFailurePersists(base: ReservationTable, leaseId: string,
                                                       listing: seq<Reservation>, n: nat)
    requires n <= |listing| && ReservationsUpserted(base, leaseId, listing[..n]).None?
    ensures ReservationsUpserted(base, leaseId, listing).None?
    decreases |listing| - n
  {
    if n < |listing| {
      assert listing[..n + 1][..n] == listing[..n];
      ReservationsFailurePersists(base, leaseId, listing, n + 1);
    } else {
      assert listing[..n] == listing;
    }
  }

  /** One more listed reservation extends the fold by one upsert step. */
  lemma ReservationsStep(base: ReservationTable, leaseId: string, listing: seq<Reservation>, i: nat,
                         m: ReservationTable)
    requires i < |listing| && ReservationsUpserted(base, leaseId, listing[..i]) == Some(m)
    ensures ReservationsUpserted(base, leaseId, listing[..i + 1]) ==
            UpsertReservation(LeaseReservationIds(base, leaseId), m, listing[i])
  {
    assert listing[..i + 1][..i] == listing[..i];
  }

  /** Reservations are only ever added: the keys become the stored plus the listed ids. */
  lemma {:induction false} ReservationsKeys(base: ReservationTable, leaseId: string, listing: seq<Reservation>)
    requires ReservationsUpserted(base, leaseId, listing).Some?
    ensures ReservationsUpserted(base, leaseId, listing).value.Keys == base.Keys + ReservationIds(listing)
    decreases |listing|
  {
    if listing != [] {
      ReservationsKeys(base, leaseId, listing[..|listing| - 1]);
      ReservationIdsSnoc(listing);
    }
  }

  /** A stored reservation the listing omits is left exactly as it was. */
  lemma {:induction false} ReservationsUnlisted(base: ReservationTable, leaseId: string,
                                                listing: seq<Reservation>, k: string)
    requires ReservationsUpserted(base, leaseId, listing).Some?
    requires k in base && k !in ReservationIds(listing)
    ensures ReservationsUpserted(base, leaseId, listing).value[k] == base[k]
    decreases |listing|
  {
    if listing != [] {
      ReservationIdsSnoc(listing);
      ReservationsUnlisted(base, leaseId, listing[..|listing| - 1], k);
    }
  }

  /** After a successful pass every listed reservation belongs to the lease. */
  lemma {:induction false} ReservationsOfLease(base: ReservationTable, leaseId: string, listing: seq<Reservation>)
    requires ReservationsUpserted(base, leaseId, listing).Some?
    requires forall i :: 0 <= i < |listing| ==> listing[i].leaseId == leaseId
    ensures var m := ReservationsUpserted(base, leaseId, listing).value;
      forall k :: k in ReservationIds(listing) ==> k in m && m[k].leaseId == leaseId
    decreases |listing|
  {
    if listing != [] {
      var n := |listing| - 1;
      var p, x := listing[..n], listing[n];
      ReservationsOfLease(base, leaseId, p);
      ReservationIdsSnoc(listing);
      ReservationsKeys(base, leaseId, p);
      if x.id in LeaseReservationIds(base, leaseId) && x.id !in ReservationIds(p) {
        ReservationsUnlisted(base, leaseId, p, x.id);
      }
    }
  }

  /** A listed id stored under a different lease makes the pass fail. */
  lemma ReservationsForeignIdFails(base: ReservationTable, leaseId: string, listing: seq<Reservation>, i: nat)
    requires i < |listing| && listing[i].id in base && base[listing[i].id].leaseId != leaseId
    ensures ReservationsUpserted(base, leaseId, listing).None?
  {
    assert listing[..i + 1][..i] == listing[..i];
    ReservationsFailurePersists(base, leaseId, listing, i + 1);
  }

  /** The lease and created time of a stored reservation never change. */
  lemma {:induction false} ReservationsStable(base: ReservationTable, leaseId: string, listing: seq<Reservation>)
    requires ReservationsUpserted(base, leaseId, listing).Some?
    ensures var m := ReservationsUpserted(base, leaseId, listing).value;
      forall k :: k in base ==> m[k].leaseId == base[k].leaseId && m[k].created == base[k].created
    decreases |listing|
  {
    if listing != [] {
      ReservationsStable(base, leaseId, listing[..|listing| - 1]);
    }
  }
}
