/**
 * ResourceCleaner.get_resources_to_delete: per table, the rows created before
 * the cutoff, never flagged absent, and not protected by name, oldest first.
 * A table is given as its rows in the order the database scans them.
 */
module Selection {
  import opened Wrappers
  import opened Inventory

  /** Network names that are never retired. */
  const ProtectedNetworks: seq<string> := ["public", "sharednet1"]
  /** Subnet names that are never retired. */
  const ProtectedSubnets: seq<string> := ["sharednet1-subnet"]
  /** `timedelta(hours=1)` in seconds. */
  const SecondsPerHour := 3600

  /** The four tables the cleaner reads, each in scan order. */
  datatype Scan = Scan(servers: seq<Record>, networks: seq<Record>, routers: seq<Record>, subnets: seq<Record>)

  /** The selected rows per kind, the dictionary get_resources_to_delete returns. */
  datatype Selected = Selected(servers: seq<Record>, networks: seq<Record>, routers: seq<Record>, subnets: seq<Record>)

  datatype SelectionError = HoursNotPositive

  /** `datetime.now() - timedelta(hours=hours)`. */
  function Cutoff(now: int, hours: int): int {
    now - hours * SecondsPerHour
  }

  /** The WHERE clause: `created_time < cutoff AND first_time_not_seen IS NULL AND resource_name NOT IN protected`. */
  predicate Retirable(r: Record, cutoff: int, protected: seq<string>) {
    r.created < cutoff && r.firstNotSeen.None? && r.name !in protected
  }

  predicate SortedByCreated(s: seq<Record>) {
    forall i, j :: 0 <= i < j < |s| ==> s[i].created <= s[j].created
  }

  /** The rows satisfying the WHERE clause, in scan order. */
  function Candidates(rows: seq<Record>, cutoff: int, protected: seq<string>): (r: seq<Record>)
    ensures forall x :: x in r <==> x in rows && Retirable(x, cutoff, protected)
    ensures multiset(r) <= multiset(rows)
  {
    if rows == [] then []
    else
      var rest := Candidates(rows[1..], cutoff, protected);
      assert rows == [rows[0]] + rows[1..];
      if Retirable(rows[0], cutoff, protected) then [rows[0]] + rest else rest
  }

  /** Insert `x` before the first row created no earlier than it. */
  function InsertByCreated(x: Record, s: seq<Record>): (r: seq<Record>)
    requires SortedByCreated(s)
    ensures SortedByCreated(r) && |r| == |s| + 1
    ensures r[0] == x || (s != [] && r[0] == s[0])
  {
    if s == [] || x.created <= s[0].created then [x] + s
    else [s[0]] + InsertByCreated(x, s[1..])
  }

  /** Insertion adds `x` and loses nothing. */
  lemma {:induction false} InsertPermutes(x: Record, s: seq<Record>)
    requires SortedByCreated(s)
    ensures multiset(InsertByCreated(x, s)) == multiset(s) + multiset{x}
  {
    if s != [] && x.created > s[0].created {
      InsertPermutes(x, s[1..]);
      assert s == [s[0]] + s[1..];
    }
  }

  /** `ORDER BY created_time ASC`: rows with equal times keep their scan order. */
  function SortByCreated(s: seq<Record>): (r: seq<Record>)
    ensures SortedByCreated(r)
    ensures multiset(r) == multiset(s)
  {
    if s == [] then []
    else
      var rest := SortByCreated(s[1..]);
      InsertPermutes(s[0], rest);
      assert s == [s[0]] + s[1..];
      InsertByCreated(s[0], rest)
  }

  /** One table's query: filter, then oldest first. */
  function OldestFirst(rows: seq<Record>, cutoff: int, protected: seq<string>): seq<Record> {
    SortByCreated(Candidates(rows, cutoff, protected))
  }

  /** get_resources_to_delete; servers and routers have no protected names. */
  function ResourcesToDelete(scan: Scan, now: int, hours: int): Selected {
    var cutoff := Cutoff(now, hours);
    Selected(OldestFirst(scan.servers, cutoff, []),
             OldestFirst(scan.networks, cutoff, ProtectedNetworks),
             OldestFirst(scan.routers, cutoff, []),
             OldestFirst(scan.subnets, cutoff, ProtectedSubnets))
  }

  /** `main`: an hour count below one is rejected before anything is selected. */
  function Plan(scan: Scan, now: int, hours: int): (r: Result<Selected, SelectionError>)
    ensures r.Failure? <==> hours < 1
    ensures r.Success? ==> r.value == ResourcesToDelete(scan, now, hours)
  {
    if hours < 1 then Failure(HoursNotPositive) else Success(ResourcesToDelete(scan, now, hours))
  }

  /**
   * A table's selection is oldest first and holds exactly the rows that
   * satisfy the WHERE clause, each as often as it was scanned.
   */
  lemma OldestFirstExact(rows: seq<Record>, cutoff: int, protected: seq<string>)
    ensures var r := OldestFirst(rows, cutoff, protected);
      SortedByCreated(r) &&
      multiset(r) == multiset(Candidates(rows, cutoff, protected)) &&
      forall x :: x in r <==> x in rows && Retirable(x, cutoff, protected)
  {
    var c := Candidates(rows, cutoff, protected);
    var r := OldestFirst(rows, cutoff, protected);
    forall x ensures x in r <==> x in c {
      assert x in r <==> x in multiset(r);
      assert x in c <==> x in multiset(c);
    }
  }

  /** The selection of a table without protected names. */
  lemma UnprotectedSelection(rows: seq<Record>, cutoff: int)
    ensures var r := OldestFirst(rows, cutoff, []);
      SortedByCreated(r) &&
      forall x :: x in r <==> x in rows && x.created < cutoff && x.firstNotSeen.None?
  {
    OldestFirstExact(rows, cutoff, []);
  }

  /**
   * Every selected server and router was created before the cutoff and was
   * never flagged absent, and every one that qualifies is selected; networks
   * named "public" or "sharednet1" and the subnet "sharednet1-subnet" are
   * never selected, whatever their age; each list is oldest first.
   */
  lemma SelectionSound(scan: Scan, now: int, hours: int)
    ensures var sel := ResourcesToDelete(scan, now, hours);
      var cutoff := now - hours * 3600;
      (forall r :: r in sel.servers <==> r in scan.servers && r.created < cutoff && r.firstNotSeen.None?) &&
      (forall r :: r in sel.routers <==> r in scan.routers && r.created < cutoff && r.firstNotSeen.None?) &&
      (forall r :: r in sel.networks <==> r in scan.networks && Retirable(r, cutoff, ProtectedNetworks)) &&
      (forall r :: r in sel.subnets <==> r in scan.subnets && Retirable(r, cutoff, ProtectedSubnets)) &&
      SortedByCreated(sel.networks) && SortedByCreated(sel.subnets) &&
      SortedByCreated(sel.servers) && SortedByCreated(sel.routers)
  {
    var cutoff := Cutoff(now, hours);
    UnprotectedSelection(scan.servers, cutoff);
    UnprotectedSelection(scan.routers, cutoff);
    OldestFirstExact(scan.networks, cutoff, ProtectedNetworks);
    OldestFirstExact(scan.subnets, cutoff, ProtectedSubnets);
  }

  /** The protected names are never retired. */
  lemma ProtectedNeverRetired(r: Record, cutoff: int)
    ensures r.name == "public" || r.name == "sharednet1" ==> !Retirable(r, cutoff, ProtectedNetworks)
    ensures r.name == "sharednet1-subnet" ==> !Retirable(r, cutoff, ProtectedSubnets)
  {
    if r.name == "public" { assert ProtectedNetworks[0] == r.name; }
    if r.name == "sharednet1" { assert ProtectedNetworks[1] == r.name; }
    if r.name == "sharednet1-subnet" { assert ProtectedSubnets[0] == r.name; }
  }

  /** `rows` is a full scan of table `t`: every stored row and nothing else. */
  ghost predicate ScanOf(rows: seq<Record>, t: Table) {
    (forall i :: 0 <= i < |rows| ==> rows[i].id in t && t[rows[i].id] == rows[i]) &&
    (forall k :: k in t ==> exists i :: 0 <= i < |rows| && rows[i].id == k)
  }

  /** Over a full scan, a stored row is selected exactly when it qualifies. */
  lemma {:induction false} SelectedFromTable(rows: seq<Record>, t: Table, cutoff: int, protected: seq<string>)
    requires ScanOf(rows, t)
    ensures forall k :: k in t ==>
      (t[k] in OldestFirst(rows, cutoff, protected) <==> Retirable(t[k], cutoff, protected))
  {
    OldestFirstExact(rows, cutoff, protected);
    forall k | k in t ensures t[k] in rows {
      var i :| 0 <= i < |rows| && rows[i].id == k;
    }
  }
}
