/**
 * The diff-and-upsert pass that every `update_*` method of ResourceTracker
 * performs on its table, stated once over rows of any kind:
 *   1. snapshot the ids already stored;
 *   2. for each listed row, in listing order, UPDATE it when its id was in the
 *      snapshot and INSERT it otherwise;
 *   3. stamp `first_time_not_seen` on snapshot ids the listing omitted, but only
 *      where that column is still NULL.
 * An INSERT of an id that is already in the table violates the primary key;
 * that happens when an id new to the table occurs twice in one listing, and the
 * pass then fails (`None`).
 */
module Reconcile {
  import opened Wrappers
  import opened Inventory

  /** The ids of a listing. */
  function Ids(listing: seq<Record>): set<string> {
    set i | 0 <= i < |listing| :: listing[i].id
  }

  /** No id occurs twice in the listing. */
  predicate DistinctIds(listing: seq<Record>) {
    forall i, j :: 0 <= i < j < |listing| ==> listing[i].id != listing[j].id
  }

  /** Ids repeated in the listing are already stored, so none is inserted twice. */
  predicate NoNewDuplicates(stored: set<string>, listing: seq<Record>) {
    forall i, j :: 0 <= i < j < |listing| && listing[i].id == listing[j].id ==> listing[i].id in stored
  }

  /** Every listed row was built at `now`. */
  predicate AllStamped(listing: seq<Record>, now: int) {
    forall i :: 0 <= i < |listing| ==> listing[i].lastSeen == now
  }

  /**
   * The UPDATE of a known row: every column the statement sets comes from the
   * seen row; `created_time`, `first_time_not_seen`, `system_deleted` (and a
   * lease's user and project) are not in its SET list and keep their values.
   */
  function Refresh(stored: Record, seen: Record): Record {
    seen.(created := stored.created,
           firstNotSeen := stored.firstNotSeen,
           systemDeleted := stored.systemDeleted,
           payload := if stored.payload.LeaseInfo? && seen.payload.LeaseInfo?
                      then seen.payload.(userId := stored.payload.userId,
                                          projectId := stored.payload.projectId)
                      else seen.payload)
  }

  /** The INSERT of a new row: the omitted columns take their defaults. */
  function Inserted(seen: Record): Record {
    seen.(firstNotSeen := None, systemDeleted := false)
  }

  /** What a listed row becomes after one write, given the snapshot. */
  function Merged(base: Table, r: Record): Record {
    if r.id in base then Refresh(base[r.id], r) else Inserted(r)
  }

  /** The absence stamp: set once, never overwritten. */
  function MarkedAbsent(r: Record, now: int): Record {
    if r.firstNotSeen.None? then r.(firstNotSeen := Some(now)) else r
  }

  /** One loop iteration: UPDATE a snapshot id, INSERT any other. */
  function UpsertOne(existing: set<string>, m: Table, r: Record): (res: Option<Table>)
    requires existing <= m.Keys
    ensures res.Some? ==> m.Keys <= res.value.Keys
  {
    if r.id in existing then Some(m[r.id := Refresh(m[r.id], r)])
    else if r.id in m then None
    else Some(m[r.id := Inserted(r)])
  }

  /** The table after the listing loop (before absence marking). */
  function Upserted(base: Table, listing: seq<Record>): (res: Option<Table>)
    ensures res.Some? ==> base.Keys <= res.value.Keys
    decreases |listing|
  {
    if listing == [] then Some(base)
    else
      match Upserted(base, listing[..|listing| - 1])
      case None => None
      case Some(m) => UpsertOne(base.Keys, m, listing[|listing| - 1])
  }

  /** The bulk absence UPDATE: `WHERE resource_id = ANY(missing) AND first_time_not_seen IS NULL`. */
  function MarkAbsent(m: Table, missing: set<string>, now: int): Table {
    map k | k in m :: if k in missing then MarkedAbsent(m[k], now) else m[k]
  }

  /** The whole pass on one table: `None` when an INSERT hits an existing key. */
  function Reconciled(base: Table, listing: seq<Record>, now: int): Option<Table> {
    match Upserted(base, listing)
    case None => None
    case Some(m) => Some(MarkAbsent(m, base.Keys - Ids(listing), now))
  }

  // ---------------------------------------------------------------------------
  // The loop, as update_servers / update_networks / update_routers / update_subnets
  // run it, proved against Reconciled.

  method SyncTable(base: Table, listing: seq<Record>, now: int) returns (ok: bool, t: Table)
    ensures ok == Reconciled(base, listing, now).Some?
    ensures ok ==> t == Reconciled(base, listing, now).value
  {
    var existing := base.Keys;
    var current: set<string> := {};
    t := base;
    var i := 0;
    while i < |listing|
      invariant 0 <= i <= |listing|
      invariant Upserted(base, listing[..i]) == Some(t)
      invariant current == Ids(listing[..i])
    {
      var r := listing[i];
      assert listing[..i + 1][..i] == listing[..i];
      IdsSnoc(listing[..i + 1]);
      current := current + {r.id};
      if r.id in existing {
        t := t[r.id := Refresh(t[r.id], r)];
      } else if r.id in t {
        // a second INSERT of the same new id: the primary key rejects it
        UpsertedFailurePersists(base, listing, i + 1);
        return false, t;
      } else {
        t := t[r.id := Inserted(r)];
      }
      i := i + 1;
    }
    assert listing[..i] == listing;
    t := MarkAbsent(t, existing - current, now);
    ok := true;
  }

  // ---------------------------------------------------------------------------
  // Lemmas about the fold.

  lemma IdsSnoc(listing: seq<Record>)
    requires listing != []
    ensures Ids(listing) == Ids(listing[..|listing| - 1]) + {listing[|listing| - 1].id}
  {
    var p := listing[..|listing| - 1];
    forall k | k in Ids(listing) ensures k in Ids(p) + {listing[|listing| - 1].id} {
      var i :| 0 <= i < |listing| && listing[i].id == k;
      if i < |p| { assert p[i] == listing[i]; }
    }
    forall k | k in Ids(p) ensures k in Ids(listing) {
      var i :| 0 <= i < |p| && p[i].id == k;
      assert listing[i] == p[i];
    }
  }

  /** Once an INSERT fails, the rest of the listing cannot repair it. */
  lemma {:induction false} UpsertedFailurePersists(base: Table, listing: seq<Record>, n: nat)
    requires n <= |listing| && Upserted(base, listing[..n]).None?
    ensures Upserted(base, listing).None?
    decreases |listing| - n
  {
    if n < |listing| {
      assert listing[..n + 1][..n] == listing[..n];
      UpsertedFailurePersists(base, listing, n + 1);
    } else {
      assert listing[..n] == listing;
    }
  }

  /** The loop fails exactly when an id new to the table occurs twice. */
  lemma {:induction false} UpsertedSucceeds(base: Table, listing: seq<Record>)
    ensures Upserted(base, listing).Some? <==> NoNewDuplicates(base.Keys, listing)
    decreases |listing|
  {
    if listing != [] {
      var n := |listing| - 1;
      var p, x := listing[..n], listing[n];
      UpsertedSucceeds(base, p);
      UpsertedKeys(base, p);
      if Upserted(base, p).Some? {
        var m := Upserted(base, p).value;
        assert Upserted(base, listing) == UpsertOne(base.Keys, m, x);
        if Upserted(base, listing).None? {
          DuplicateAtEnd(base.Keys, listing);
        } else {
          assert x.id in base || x.id !in m;
          NoDuplicateAtEnd(base.Keys, listing);
        }
      } else {
        NewDuplicateInPrefix(base.Keys, listing, n);
      }
    }
  }

  /** A last row whose id is new and already listed breaks the condition. */
  lemma DuplicateAtEnd(stored: set<string>, listing: seq<Record>)
    requires listing != []
    requires listing[|listing| - 1].id !in stored && listing[|listing| - 1].id in Ids(listing[..|listing| - 1])
    ensures !NoNewDuplicates(stored, listing)
  {
    var n := |listing| - 1;
    var i :| 0 <= i < n && listing[..n][i].id == listing[n].id;
    assert listing[i].id == listing[n].id;
  }

  /** A last row whose id is stored or not yet listed keeps the condition. */
  lemma NoDuplicateAtEnd(stored: set<string>, listing: seq<Record>)
    requires listing != [] && NoNewDuplicates(stored, listing[..|listing| - 1])
    requires listing[|listing| - 1].id in stored || listing[|listing| - 1].id !in Ids(listing[..|listing| - 1])
    ensures NoNewDuplicates(stored, listing)
  {
    var n := |listing| - 1;
    var p := listing[..n];
    forall i, j | 0 <= i < j < |listing| && listing[i].id == listing[j].id
      ensures listing[i].id in stored
    {
      if j < n {
        assert p[i] == listing[i] && p[j] == listing[j];
      } else {
        assert p[i] == listing[i];
        assert listing[n].id in Ids(p);
      }
    }
  }

  /** A new id listed twice in a prefix is listed twice in the whole listing. */
  lemma NewDuplicateInPrefix(stored: set<string>, listing: seq<Record>, n: nat)
    requires n <= |listing| && !NoNewDuplicates(stored, listing[..n])
    ensures !NoNewDuplicates(stored, listing)
  {
    var p := listing[..n];
    var i, j :| 0 <= i < j < |p| && p[i].id == p[j].id && p[i].id !in stored;
    assert listing[i] == p[i] && listing[j] == p[j];
  }

  /** After the loop the keys are the stored ones plus the listed ones. */
  lemma {:induction false} UpsertedKeys(base: Table, listing: seq<Record>)
    ensures Upserted(base, listing).Some? ==> Upserted(base, listing).value.Keys == base.Keys + Ids(listing)
    decreases |listing|
  {
    if listing != [] {
      UpsertedKeys(base, listing[..|listing| - 1]);
      IdsSnoc(listing);
    }
  }

  /** Rows the listing does not mention are untouched by the loop. */
  lemma {:induction false} UpsertedUnlisted(base: Table, listing: seq<Record>, k: string)
    requires Upserted(base, listing).Some? && k in base && k !in Ids(listing)
    ensures Upserted(base, listing).value[k] == base[k]
    decreases |listing|
  {
    if listing != [] {
      IdsSnoc(listing);
      UpsertedUnlisted(base, listing[..|listing| - 1], k);
    }
  }

  /**
   * The loop never changes `created_time`, `first_time_not_seen` or
   * `system_deleted` of a stored row, and inserts rows with no absence stamp.
   */
  lemma {:induction false} UpsertedStable(base: Table, listing: seq<Record>)
    requires Upserted(base, listing).Some?
    ensures var m := Upserted(base, listing).value;
      forall k :: k in m ==>
        if k in base then
          m[k].created == base[k].created && m[k].firstNotSeen == base[k].firstNotSeen &&
          m[k].systemDeleted == base[k].systemDeleted
        else m[k].firstNotSeen.None? && !m[k].systemDeleted
    decreases |listing|
  {
    if listing != [] {
      UpsertedStable(base, listing[..|listing| - 1]);
    }
  }

  /** Every listed id ends with `last_seen_time` set to the pass time. */
  lemma {:induction false} UpsertedLastSeen(base: Table, listing: seq<Record>, now: int)
    requires Upserted(base, listing).Some? && AllStamped(listing, now)
    ensures forall k :: k in Ids(listing) ==>
      k in Upserted(base, listing).value && Upserted(base, listing).value[k].lastSeen == now
    decreases |listing|
  {
    if listing != [] {
      var p := listing[..|listing| - 1];
      assert AllStamped(p, now) by {
        forall i | 0 <= i < |p| ensures p[i].lastSeen == now { assert p[i] == listing[i]; }
      }
      UpsertedLastSeen(base, p, now);
      UpsertedKeys(base, p);
      IdsSnoc(listing);
    }
  }

  /** With distinct ids, each listed row is exactly its single UPDATE or INSERT. */
  lemma {:induction false} UpsertedListed(base: Table, listing: seq<Record>)
    requires Upserted(base, listing).Some? && DistinctIds(listing)
    ensures forall i :: 0 <= i < |listing| ==>
      listing[i].id in Upserted(base, listing).value &&
      Upserted(base, listing).value[listing[i].id] == Merged(base, listing[i])
    decreases |listing|
  {
    if listing != [] {
      var n := |listing| - 1;
      var p, x := listing[..n], listing[n];
      assert DistinctIds(p) by {
        forall i, j | 0 <= i < j < |p| ensures p[i].id != p[j].id {
          assert p[i] == listing[i] && p[j] == listing[j];
        }
      }
      UpsertedListed(base, p);
      forall i | 0 <= i < |p| ensures p[i].id != x.id {
        assert p[i] == listing[i];
      }
      assert x.id !in Ids(p);
      if x.id in base { UpsertedUnlisted(base, p, x.id); }
      forall i | 0 <= i < |listing|
        ensures listing[i].id in Upserted(base, listing).value &&
          Upserted(base, listing).value[listing[i].id] == Merged(base, listing[i])
      {
        if i < n { assert p[i] == listing[i]; }
      }
    }
  }

  /** Each row stays stored under its own id. */
  lemma {:induction false} UpsertedKeysMatch(base: Table, listing: seq<Record>)
    requires Upserted(base, listing).Some? && KeysMatch(base)
    ensures KeysMatch(Upserted(base, listing).value)
    decreases |listing|
  {
    if listing != [] {
      UpsertedKeysMatch(base, listing[..|listing| - 1]);
    }
  }

  // ---------------------------------------------------------------------------
  // What a whole pass promises.

  /** The pass fails exactly when an INSERT would repeat a key. */
  lemma ReconcileSucceeds(base: Table, listing: seq<Record>, now: int)
    ensures Reconciled(base, listing, now).Some? <==> NoNewDuplicates(base.Keys, listing)
  {
    UpsertedSucceeds(base, listing);
  }

  /** No row is ever removed: the keys become the stored keys plus the listed ids. */
  lemma ReconcileKeys(base: Table, listing: seq<Record>, now: int)
    requires Reconciled(base, listing, now).Some?
    ensures Reconciled(base, listing, now).value.Keys == base.Keys + Ids(listing)
  {
    UpsertedKeys(base, listing);
  }

  /**
   * With distinct ids, every listed row carries the listing's values, keeps
   * a stored row's created time and absence stamp, and is inserted unflagged.
   */
  lemma ReconcileListed(base: Table, listing: seq<Record>, now: int)
    requires Reconciled(base, listing, now).Some? && DistinctIds(listing)
    ensures forall i :: 0 <= i < |listing| ==>
      listing[i].id in Reconciled(base, listing, now).value &&
      Reconciled(base, listing, now).value[listing[i].id] == Merged(base, listing[i])
  {
    UpsertedListed(base, listing);
    UpsertedKeys(base, listing);
  }

  /** Every listed id is last seen at the pass time. */
  lemma ReconcileLastSeen(base: Table, listing: seq<Record>, now: int)
    requires Reconciled(base, listing, now).Some? && AllStamped(listing, now)
    ensures forall k :: k in Ids(listing) ==>
      k in Reconciled(base, listing, now).value && Reconciled(base, listing, now).value[k].lastSeen == now
  {
    UpsertedLastSeen(base, listing, now);
    UpsertedKeys(base, listing);
  }

  /** A stored id missing from the listing is stamped if unstamped, otherwise left alone. */
  lemma ReconcileUnlisted(base: Table, listing: seq<Record>, now: int)
    requires Reconciled(base, listing, now).Some?
    ensures forall k :: k in base && k !in Ids(listing) ==>
      Reconciled(base, listing, now).value[k] == MarkedAbsent(base[k], now)
  {
    forall k | k in base && k !in Ids(listing)
      ensures Reconciled(base, listing, now).value[k] == MarkedAbsent(base[k], now)
    {
      UpsertedUnlisted(base, listing, k);
    }
  }

  /**
   * Created time and the deletion flag of a stored row never change; its
   * absence stamp, once set, never changes; a reappearing row keeps its
   * stamp; a new row has none.
   */
  lemma ReconcileStable(base: Table, listing: seq<Record>, now: int)
    requires Reconciled(base, listing, now).Some?
    ensures var m := Reconciled(base, listing, now).value;
      forall k :: k in m ==>
        if k in base then
          m[k].created == base[k].created && m[k].systemDeleted == base[k].systemDeleted &&
          (base[k].firstNotSeen.Some? || k in Ids(listing) ==> m[k].firstNotSeen == base[k].firstNotSeen) &&
          (base[k].firstNotSeen.None? && k !in Ids(listing) ==> m[k].firstNotSeen == Some(now))
        else m[k].firstNotSeen.None? && !m[k].systemDeleted
  {
    UpsertedStable(base, listing);
  }

  /**
   * Running the pass again over a re-listing of the same resources, built at
   * a later time, succeeds, inserts nothing and changes no absence stamp.
   */
  lemma ReconcileIdempotent(base: Table, listing: seq<Record>, now: int, relisted: seq<Record>, later: int)
    requires Reconciled(base, listing, now).Some?
    requires Ids(relisted) == Ids(listing)
    ensures var m1 := Reconciled(base, listing, now).value;
      var again := Reconciled(m1, relisted, later);
      again.Some? && again.value.Keys == m1.Keys &&
      forall k :: k in m1 ==> again.value[k].firstNotSeen == m1[k].firstNotSeen
  {
    var m1 := Reconciled(base, listing, now).value;
    ReconcileKeys(base, listing, now);
    ReconcileSucceeds(m1, relisted, later);
    ReconcileKeys(m1, relisted, later);
    ReconcileStable(base, listing, now);
    ReconcileStable(m1, relisted, later);
  }

  /** The primary-key invariant survives a pass. */
  lemma ReconcileKeysMatch(base: Table, listing: seq<Record>, now: int)
    requires Reconciled(base, listing, now).Some? && KeysMatch(base)
    ensures KeysMatch(Reconciled(base, listing, now).value)
  {
    UpsertedKeysMatch(base, listing);
  }
}
