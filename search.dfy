// Name search over the stored tables (search_resources_by_name in resource_search.py).
//
// The query string is cut at every '*', each piece is stripped of surrounding
// whitespace and empty pieces are dropped; every remaining term becomes a
// LIKE pattern '%term%', and the optional site is appended as the last query
// parameter. A row is returned when its name matches every pattern and, when a
// site was given, its project site equals it. The six result lists are filled
// from six tables; GPU leases are matched on their lease name and reported with
// the same five keys as every other kind.

module Search {
  import opened Wrappers

  // ---------------------------------------------------------------------------
  // Whitespace, as Python's str.strip() with no argument understands it.

  predicate IsSpace(c: char) {
    c == ' ' || c == '\t' || c == '\n' || c == '\r' || c == '\U{0B}' || c == '\U{0C}' ||
    ('\U{1C}' <= c <= '\U{1F}') || c == '\U{85}' || c == '\U{A0}' || c == '\U{1680}' ||
    ('\U{2000}' <= c <= '\U{200A}') || c == '\U{2028}' || c == '\U{2029}' || c == '\U{202F}' ||
    c == '\U{205F}' || c == '\U{3000}'
  }

  predicate AllSpace(s: string) {
    forall i :: 0 <= i < |s| ==> IsSpace(s[i])
  }

  /** Drops leading whitespace: what remains is a suffix that starts with a non-space. */
  function Lstrip(s: string): (r: string)
    ensures |r| <= |s| && r == s[|s| - |r|..]
    ensures r == [] || !IsSpace(r[0])
    ensures forall i :: 0 <= i < |s| - |r| ==> IsSpace(s[i])
  {
    if s != [] && IsSpace(s[0]) then Lstrip(s[1..]) else s
  }

  /** Drops trailing whitespace: what remains is a prefix that ends with a non-space. */
  function Rstrip(s: string): (r: string)
    ensures |r| <= |s| && r == s[..|r|]
    ensures r == [] || !IsSpace(r[|r| - 1])
    ensures forall i :: |r| <= i < |s| ==> IsSpace(s[i])
  {
    if s != [] && IsSpace(s[|s| - 1]) then Rstrip(s[..|s| - 1]) else s
  }

  function Strip(s: string): string {
    Rstrip(Lstrip(s))
  }

  lemma StripIsRun(s: string)
    ensures var r, k := Strip(s), |s| - |Lstrip(s)|;
      k + |r| <= |s| && r == s[k..k + |r|]
  {
    var l := Lstrip(s);
    var k := |s| - |l|;
    assert l == s[k..];
    assert Rstrip(l) == l[..|Rstrip(l)|];
  }

  lemma StripEnds(s: string)
    ensures var r := Strip(s);
      r != [] ==> !IsSpace(r[0]) && !IsSpace(r[|r| - 1])
  {
    var l := Lstrip(s);
    var r := Rstrip(l);
    if r != [] {
      assert r[0] == l[0];
    }
  }

  lemma StripEmpty(s: string)
    ensures Strip(s) == [] <==> AllSpace(s)
  {
    var l := Lstrip(s);
    var r := Rstrip(l);
    if l != [] {
      // the first kept character is not a space, so neither strip removes it
      assert !IsSpace(l[0]);
      assert l[0] == s[|s| - |l|];
    }
  }

  /** Stripping leaves a run of the original characters that starts and ends with a
      non-space, and leaves nothing exactly when the string is all whitespace. */
  lemma StripProperties(s: string)
    ensures var r, k := Strip(s), |s| - |Lstrip(s)|;
      k + |r| <= |s| && r == s[k..k + |r|] &&
      (r == [] <==> AllSpace(s)) &&
      (r != [] ==> !IsSpace(r[0]) && !IsSpace(r[|r| - 1]))
  {
    StripIsRun(s);
    StripEmpty(s);
    StripEnds(s);
  }

  // ---------------------------------------------------------------------------
  // Python's str.split('*') and its inverse.

  /** The pieces between the '*' separators, in order; an empty string gives one empty piece. */
  function Split(s: string): (r: seq<string>)
    ensures |r| >= 1
    decreases |s|
  {
    if s == [] then [[]]
    else if s[0] == '*' then [[]] + Split(s[1..])
    else
      var rest := Split(s[1..]);
      [[s[0]] + rest[0]] + rest[1..]
  }

  /** The pieces glued back together with '*' between them. */
  function Join(pieces: seq<string>): string
    requires |pieces| >= 1
  {
    if |pieces| == 1 then pieces[0] else pieces[0] + "*" + Join(pieces[1..])
  }

  lemma {:induction false} SplitPiecesHaveNoStar(s: string)
    ensures forall p :: p in Split(s) ==> '*' !in p
    decreases |s|
  {
    if s == [] {
    } else if s[0] == '*' {
      SplitPiecesHaveNoStar(s[1..]);
    } else {
      SplitPiecesHaveNoStar(s[1..]);
      var rest := Split(s[1..]);
      assert rest[0] in rest;
      forall p | p in rest[1..] ensures p in rest { }
    }
  }

  lemma {:induction false} JoinSplit(s: string)
    ensures Join(Split(s)) == s
    decreases |s|
  {
    if s == [] {
    } else if s[0] == '*' {
      JoinSplit(s[1..]);
      assert s == [] + "*" + s[1..];
    } else {
      JoinSplit(s[1..]);
      JoinConsHead(s[0], Split(s[1..]));
      assert s == [s[0]] + s[1..];
    }
  }

  /** Putting a character in front of the first piece puts it in front of the joined string. */
  lemma {:induction false} JoinConsHead(c: char, pieces: seq<string>)
    requires |pieces| >= 1
    ensures Join([[c] + pieces[0]] + pieces[1..]) == [c] + Join(pieces)
  {
    var head := [c] + pieces[0];
    var glued := [head] + pieces[1..];
    assert |glued| == |pieces|;
    if |pieces| == 1 {
      assert Join(glued) == head;
      assert Join(pieces) == pieces[0];
    } else {
      var tail := Join(pieces[1..]);
      assert glued[0] == head && glued[1..] == pieces[1..];
      assert Join(glued) == head + "*" + tail;
      assert Join(pieces) == pieces[0] + "*" + tail;
      assert head + "*" + tail == [c] + (pieces[0] + "*" + tail);
    }
  }

  /** Splitting a star-free head followed by anything glues the head onto the first piece. */
  lemma {:induction false} SplitStarFreeHead(a: string, rest: string)
    requires '*' !in a
    ensures Split(a + rest) == [a + Split(rest)[0]] + Split(rest)[1..]
    decreases |a|
  {
    var tail := Split(rest);
    if a == [] {
      assert a + rest == rest;
      assert a + tail[0] == tail[0];
      assert [tail[0]] + tail[1..] == tail;
    } else {
      SplitStarFreeHead(a[1..], rest);
      assert (a + rest)[1..] == a[1..] + rest;
      assert (a + rest)[0] == a[0] && a[0] != '*';
      var inner := Split(a[1..] + rest);
      assert inner == [a[1..] + tail[0]] + tail[1..];
      assert Split(a + rest) == [[a[0]] + inner[0]] + inner[1..];
      assert inner[1..] == tail[1..];
      assert [a[0]] + (a[1..] + tail[0]) == a + tail[0];
    }
  }

  lemma {:induction false} SplitJoin(pieces: seq<string>)
    requires |pieces| >= 1 && forall p :: p in pieces ==> '*' !in p
    ensures Split(Join(pieces)) == pieces
  {
    if |pieces| == 1 {
      SplitStarFreeHead(pieces[0], []);
      assert pieces[0] + [] == pieces[0];
    } else {
      assert pieces[0] in pieces;
      forall p | p in pieces[1..] ensures '*' !in p {
        assert p in pieces;
      }
      SplitJoin(pieces[1..]);
      var tail := "*" + Join(pieces[1..]);
      assert tail[1..] == Join(pieces[1..]);
      assert Split(tail) == [[]] + pieces[1..];
      SplitStarFreeHead(pieces[0], tail);
      assert pieces[0] + "*" + Join(pieces[1..]) == pieces[0] + tail;
      assert pieces[0] + [] == pieces[0];
    }
  }

  /** Every piece is all whitespace exactly when the string holds nothing but '*' and whitespace. */
  lemma {:induction false} SplitAllSpace(s: string)
    ensures (forall p :: p in Split(s) ==> AllSpace(p)) <==>
            (forall i :: 0 <= i < |s| ==> s[i] == '*' || IsSpace(s[i]))
    decreases |s|
  {
    if s == [] {
      assert Split(s) == [[]];
    } else {
      SplitAllSpace(s[1..]);
      var rest := Split(s[1..]);
      if s[0] == '*' {
        assert Split(s) == [[]] + rest;
      } else {
        var head := [s[0]] + rest[0];
        assert Split(s) == [head] + rest[1..];
        assert AllSpace(head) <==> IsSpace(s[0]) && AllSpace(rest[0]) by {
          if IsSpace(s[0]) && AllSpace(rest[0]) {
            forall i | 0 <= i < |head| ensures IsSpace(head[i]) {
              if i > 0 { assert head[i] == rest[0][i - 1]; }
            }
          }
          if AllSpace(head) {
            assert head[0] == s[0];
            forall i | 0 <= i < |rest[0]| ensures IsSpace(rest[0][i]) {
              assert rest[0][i] == head[i + 1];
            }
          }
        }
        assert rest == [rest[0]] + rest[1..];
      }
      assert forall i :: 1 <= i < |s| ==> s[i] == s[1..][i - 1];
    }
  }

  // ---------------------------------------------------------------------------
  // Search terms.

  /** The stripped pieces that are not empty, in order. */
  function NonEmptyStripped(pieces: seq<string>): (r: seq<string>)
    ensures |r| <= |pieces|
  {
    if pieces == [] then []
    else
      var t := Strip(pieces[0]);
      (if t != [] then [t] else []) + NonEmptyStripped(pieces[1..])
  }

  function Terms(query: string): seq<string> {
    NonEmptyStripped(Split(query))
  }

  predicate WellFormedTerm(t: string) {
    t != [] && '*' !in t && !IsSpace(t[0]) && !IsSpace(t[|t| - 1])
  }

  lemma StrippedWellFormed(p: string)
    requires '*' !in p && Strip(p) != []
    ensures WellFormedTerm(Strip(p))
  {
    StripProperties(p);
    var t, k := Strip(p), |p| - |Lstrip(p)|;
    forall j | 0 <= j < |t| ensures t[j] != '*' {
      assert t[j] == p[k + j];
    }
  }

  lemma {:induction false} NonEmptyStrippedWellFormed(pieces: seq<string>)
    requires forall p :: p in pieces ==> '*' !in p
    ensures forall t :: t in NonEmptyStripped(pieces) ==> WellFormedTerm(t)
  {
    if pieces != [] {
      var p := pieces[0];
      assert p in pieces;
      forall q | q in pieces[1..] ensures '*' !in q {
        assert q in pieces;
      }
      NonEmptyStrippedWellFormed(pieces[1..]);
      var t := Strip(p);
      var head: seq<string> := if t != [] then [t] else [];
      if t != [] {
        StrippedWellFormed(p);
      }
      assert NonEmptyStripped(pieces) == head + NonEmptyStripped(pieces[1..]);
    }
  }

  /** No term is empty, none holds a '*', and none starts or ends with whitespace. */
  lemma TermsWellFormed(query: string)
    ensures forall t :: t in Terms(query) ==> WellFormedTerm(t)
  {
    SplitPiecesHaveNoStar(query);
    NonEmptyStrippedWellFormed(Split(query));
  }

  lemma {:induction false} NonEmptyStrippedEmpty(pieces: seq<string>)
    ensures NonEmptyStripped(pieces) == [] <==> forall p :: p in pieces ==> AllSpace(p)
  {
    if pieces != [] {
      NonEmptyStrippedEmpty(pieces[1..]);
      StripProperties(pieces[0]);
      assert pieces == [pieces[0]] + pieces[1..];
    }
  }

  /** The query yields no term exactly when it holds nothing but '*' and whitespace. */
  lemma TermsEmpty(query: string)
    ensures Terms(query) == [] <==> forall i :: 0 <= i < |query| ==> query[i] == '*' || IsSpace(query[i])
  {
    NonEmptyStrippedEmpty(Split(query));
    SplitAllSpace(query);
  }

  // ---------------------------------------------------------------------------
  // Query parameters and the LIKE operator.

  /** A site narrows the search only when it is given and not empty. */
  predicate SiteGiven(site: Option<string>) {
    site.Some? && site.value != []
  }

  function Pattern(term: string): string {
    "%" + term + "%"
  }

  /** One '%term%' pattern per term, then the site when one is given. */
  function QueryParams(terms: seq<string>, site: Option<string>): (r: seq<string>)
    ensures |r| == |terms| + (if SiteGiven(site) then 1 else 0)
    ensures forall i :: 0 <= i < |terms| ==> r[i] == Pattern(terms[i])
    ensures SiteGiven(site) ==> r[|r| - 1] == site.value
  {
    seq(|terms|, i requires 0 <= i < |terms| => Pattern(terms[i])) +
    (if SiteGiven(site) then [site.value] else [])
  }

  /** SQL LIKE: '%' matches any run of characters, '_' any single character,
      every other character itself. */
  predicate Like(s: string, p: string)
    decreases |p|, |s|
  {
    if p == [] then s == []
    else if p[0] == '%' then Like(s, p[1..]) || (s != [] && Like(s[1..], p))
    else s != [] && (p[0] == '_' || p[0] == s[0]) && Like(s[1..], p[1..])
  }

  /** A term LIKE reads literally. */
  predicate NoWildcards(t: string) {
    '%' !in t && '_' !in t
  }

  /** Plain substring containment, the reference meaning of a '%term%' pattern. */
  predicate Contains(s: string, t: string) {
    exists i :: 0 <= i <= |s| && t <= s[i..]
  }

  lemma {:induction false} LikeAnything(s: string)
    ensures Like(s, "%")
    decreases |s|
  {
    assert "%"[1..] == [];
    if s != [] {
      LikeAnything(s[1..]);
    }
  }

  lemma {:induction false} LikePrefix(s: string, t: string)
    requires NoWildcards(t)
    ensures Like(s, t + "%") <==> t <= s
    decreases |t|
  {
    if t == [] {
      assert t + "%" == "%";
      LikeAnything(s);
    } else {
      assert (t + "%")[0] == t[0];
      assert (t + "%")[1..] == t[1..] + "%";
      if s != [] {
        LikePrefix(s[1..], t[1..]);
        assert t <= s <==> t[0] == s[0] && t[1..] <= s[1..];
      }
    }
  }

  lemma {:induction false} LikeLeadingPercent(s: string, q: string)
    ensures Like(s, "%" + q) <==> exists i :: 0 <= i <= |s| && Like(s[i..], q)
    decreases |s|
  {
    var p := "%" + q;
    assert p[1..] == q;
    assert s[0..] == s;
    if s != [] {
      LikeLeadingPercent(s[1..], q);
      if exists i :: 0 <= i <= |s| && Like(s[i..], q) {
        var i :| 0 <= i <= |s| && Like(s[i..], q);
        if i > 0 {
          assert s[1..][i - 1..] == s[i..];
        }
      }
      if exists j :: 0 <= j <= |s[1..]| && Like(s[1..][j..], q) {
        var j :| 0 <= j <= |s[1..]| && Like(s[1..][j..], q);
        assert s[1..][j..] == s[j + 1..];
      }
    }
  }

  /** A '%term%' pattern over a term without wildcards is substring containment. */
  lemma LikeMeansContains(s: string, t: string)
    requires NoWildcards(t)
    ensures Like(s, Pattern(t)) <==> Contains(s, t)
  {
    assert Pattern(t) == "%" + (t + "%");
    LikeLeadingPercent(s, t + "%");
    forall i | 0 <= i <= |s| ensures Like(s[i..], t + "%") <==> t <= s[i..] {
      LikePrefix(s[i..], t);
    }
  }

  // ---------------------------------------------------------------------------
  // The WHERE clause and what it means.

  /** The meaning promised to the user: the name contains every term and, when a
      site is given, the row's project site is that site. */
  predicate Matches(name: string, rowSite: Option<string>, terms: seq<string>, site: Option<string>) {
    (forall t :: t in terms ==> Contains(name, t)) && (SiteGiven(site) ==> rowSite == site)
  }

  /** The WHERE clause as issued: the first n parameters are LIKE patterns on the
      name, and with a site condition the parameter after them is compared to the
      row's project site (a NULL site never compares equal). */
  predicate Where(name: string, rowSite: Option<string>, params: seq<string>, n: nat, siteGiven: bool)
    requires n + (if siteGiven then 1 else 0) <= |params|
  {
    (forall i :: 0 <= i < n ==> Like(name, params[i])) &&
    (siteGiven ==> rowSite == Some(params[n]))
  }

  /** With wildcard-free terms, the clause built from the parameters selects exactly the matching rows. */
  lemma WhereMeansMatches(name: string, rowSite: Option<string>, terms: seq<string>, site: Option<string>)
    requires forall t :: t in terms ==> NoWildcards(t)
    ensures Where(name, rowSite, QueryParams(terms, site), |terms|, SiteGiven(site)) <==>
            Matches(name, rowSite, terms, site)
  {
    var params := QueryParams(terms, site);
    forall i | 0 <= i < |terms| ensures Like(name, params[i]) <==> Contains(name, terms[i]) {
      assert terms[i] in terms;
      LikeMeansContains(name, terms[i]);
    }
    if (forall i :: 0 <= i < |terms| ==> Like(name, params[i])) {
      forall t | t in terms ensures Contains(name, t) {
        var i :| 0 <= i < |terms| && terms[i] == t;
      }
    }
  }

  // ---------------------------------------------------------------------------
  // Rows and results.

  /** A row of servers, networks, routers, subnets or floating_ips, and also the shape of every result entry. */
  datatype Row = Row(resourceId: string, resourceName: string, createdTime: int, lastSeenTime: int,
                     projectSite: Option<string>)

  datatype LeaseRow = LeaseRow(leaseId: string, leaseName: string, createdTime: int, lastSeenTime: int,
                               projectSite: Option<string>)

  datatype Tables = Tables(servers: seq<Row>, networks: seq<Row>, routers: seq<Row>, subnets: seq<Row>,
                           gpuLeases: seq<LeaseRow>, floatingIps: seq<Row>)

  /** A lease is reported under the resource keys. */
  function LeaseHit(l: LeaseRow): Row {
    Row(l.leaseId, l.leaseName, l.createdTime, l.lastSeenTime, l.projectSite)
  }

  /** The rows the clause keeps, in scan order. */
  function FilterRows(rows: seq<Row>, params: seq<string>, n: nat, siteGiven: bool): (r: seq<Row>)
    requires n + (if siteGiven then 1 else 0) <= |params|
    ensures |r| <= |rows|
  {
    if rows == [] then []
    else
      (if Where(rows[0].resourceName, rows[0].projectSite, params, n, siteGiven) then [rows[0]] else []) +
      FilterRows(rows[1..], params, n, siteGiven)
  }

  lemma {:induction false} FilterRowsMembers(rows: seq<Row>, params: seq<string>, n: nat, siteGiven: bool)
    requires n + (if siteGiven then 1 else 0) <= |params|
    ensures forall x :: x in FilterRows(rows, params, n, siteGiven) <==>
      x in rows && Where(x.resourceName, x.projectSite, params, n, siteGiven)
  {
    if rows != [] {
      FilterRowsMembers(rows[1..], params, n, siteGiven);
      assert rows == [rows[0]] + rows[1..];
    }
  }

  /** The leases the clause keeps, matched on lease name, in scan order. */
  function FilterLeases(leases: seq<LeaseRow>, params: seq<string>, n: nat, siteGiven: bool): (r: seq<Row>)
    requires n + (if siteGiven then 1 else 0) <= |params|
    ensures |r| <= |leases|
  {
    if leases == [] then []
    else
      var l := leases[0];
      (if Where(l.leaseName, l.projectSite, params, n, siteGiven) then [LeaseHit(l)] else []) +
      FilterLeases(leases[1..], params, n, siteGiven)
  }

  lemma {:induction false} FilterLeasesMembers(leases: seq<LeaseRow>, params: seq<string>, n: nat, siteGiven: bool)
    requires n + (if siteGiven then 1 else 0) <= |params|
    ensures var r := FilterLeases(leases, params, n, siteGiven);
      (forall l :: l in leases ==> (LeaseHit(l) in r <==> Where(l.leaseName, l.projectSite, params, n, siteGiven))) &&
      (forall h :: h in r ==> exists l :: l in leases && h == LeaseHit(l))
  {
    if leases != [] {
      FilterLeasesMembers(leases[1..], params, n, siteGiven);
      assert leases == [leases[0]] + leases[1..];
    }
  }

  const ResultKinds: set<string> := {"servers", "networks", "routers", "subnets", "gpu_leases", "floating_ips"}

  /** The results dictionary, one list per kind. */
  function Results(servers: seq<Row>, networks: seq<Row>, routers: seq<Row>, subnets: seq<Row>,
                   gpuLeases: seq<Row>, floatingIps: seq<Row>): (r: map<string, seq<Row>>)
    ensures r.Keys == ResultKinds
    ensures r["servers"] == servers && r["networks"] == networks && r["routers"] == routers &&
            r["subnets"] == subnets && r["gpu_leases"] == gpuLeases && r["floating_ips"] == floatingIps
  {
    map["servers" := servers, "networks" := networks, "routers" := routers, "subnets" := subnets,
        "gpu_leases" := gpuLeases, "floating_ips" := floatingIps]
  }

  /** The six lists for the terms already cut from the query: all empty when there is no term. */
  function SearchTerms(db: Tables, terms: seq<string>, site: Option<string>): (r: map<string, seq<Row>>)
    ensures r.Keys == ResultKinds
    ensures terms == [] ==> forall k :: k in r ==> r[k] == []
  {
    if terms == [] then
      Results([], [], [], [], [], [])
    else
      var params := QueryParams(terms, site);
      var n, given := |terms|, SiteGiven(site);
      Results(FilterRows(db.servers, params, n, given), FilterRows(db.networks, params, n, given),
              FilterRows(db.routers, params, n, given), FilterRows(db.subnets, params, n, given),
              FilterLeases(db.gpuLeases, params, n, given), FilterRows(db.floatingIps, params, n, given))
  }

  /** search_resources_by_name. */
  function SearchResourcesByName(db: Tables, query: string, site: Option<string>): map<string, seq<Row>> {
    SearchTerms(db, Terms(query), site)
  }

  /** The hits are rows of the table, and a row is a hit exactly when there is a
      term and the row matches. */
  predicate Answers(hits: seq<Row>, rows: seq<Row>, terms: seq<string>, site: Option<string>) {
    (forall x :: x in hits ==> x in rows) &&
    (forall x :: x in rows ==> (x in hits <==> terms != [] && Matches(x.resourceName, x.projectSite, terms, site)))
  }

  predicate LeaseAnswers(hits: seq<Row>, leases: seq<LeaseRow>, terms: seq<string>, site: Option<string>) {
    (forall h :: h in hits ==> exists l :: l in leases && h == LeaseHit(l)) &&
    (forall l :: l in leases ==> (LeaseHit(l) in hits <==> terms != [] && Matches(l.leaseName, l.projectSite, terms, site)))
  }

  lemma FilterRowsAnswers(rows: seq<Row>, terms: seq<string>, site: Option<string>)
    requires terms != [] && forall t :: t in terms ==> NoWildcards(t)
    ensures Answers(FilterRows(rows, QueryParams(terms, site), |terms|, SiteGiven(site)), rows, terms, site)
  {
    FilterRowsMembers(rows, QueryParams(terms, site), |terms|, SiteGiven(site));
    forall x | x in rows {
      WhereMeansMatches(x.resourceName, x.projectSite, terms, site);
    }
  }

  lemma FilterLeasesAnswers(leases: seq<LeaseRow>, terms: seq<string>, site: Option<string>)
    requires terms != [] && forall t :: t in terms ==> NoWildcards(t)
    ensures LeaseAnswers(FilterLeases(leases, QueryParams(terms, site), |terms|, SiteGiven(site)), leases, terms, site)
  {
    FilterLeasesMembers(leases, QueryParams(terms, site), |terms|, SiteGiven(site));
    forall l | l in leases {
      WhereMeansMatches(l.leaseName, l.projectSite, terms, site);
    }
  }

  /** Every result list holds exactly the rows of its table whose name contains every
      term of the query (and whose site is the given one), provided no term holds a
      LIKE wildcard. */
  lemma SearchMeaning(db: Tables, query: string, site: Option<string>)
    requires forall t :: t in Terms(query) ==> NoWildcards(t)
    ensures var r, terms := SearchResourcesByName(db, query, site), Terms(query);
      Answers(r["servers"], db.servers, terms, site) &&
      Answers(r["networks"], db.networks, terms, site) &&
      Answers(r["routers"], db.routers, terms, site) &&
      Answers(r["subnets"], db.subnets, terms, site) &&
      LeaseAnswers(r["gpu_leases"], db.gpuLeases, terms, site) &&
      Answers(r["floating_ips"], db.floatingIps, terms, site)
  {
    var terms := Terms(query);
    if terms != [] {
      FilterRowsAnswers(db.servers, terms, site);
      FilterRowsAnswers(db.networks, terms, site);
      FilterRowsAnswers(db.routers, terms, site);
      FilterRowsAnswers(db.subnets, terms, site);
      FilterLeasesAnswers(db.gpuLeases, terms, site);
      FilterRowsAnswers(db.floatingIps, terms, site);
    }
  }

  /**
   * The hits are rows of the table, and a row is a hit exactly when the query
   * runs (`run`, there is a term) and its WHERE clause, built from `params`,
   * holds for the row.
   */
  predicate SelectedRows(hits: seq<Row>, rows: seq<Row>, run: bool, params: seq<string>, n: nat, siteGiven: bool)
    requires n + (if siteGiven then 1 else 0) <= |params|
  {
    (forall x :: x in hits ==> x in rows) &&
    (forall x :: x in rows ==> (x in hits <==> run && Where(x.resourceName, x.projectSite, params, n, siteGiven)))
  }

  predicate SelectedLeases(hits: seq<Row>, leases: seq<LeaseRow>, run: bool, params: seq<string>, n: nat, siteGiven: bool)
    requires n + (if siteGiven then 1 else 0) <= |params|
  {
    (forall h :: h in hits ==> exists l :: l in leases && h == LeaseHit(l)) &&
    (forall l :: l in leases ==> (LeaseHit(l) in hits <==> run && Where(l.leaseName, l.projectSite, params, n, siteGiven)))
  }

  /**
   * For every query, including terms holding `%` or `_`, each result list
   * holds exactly the rows of its table that the issued WHERE clause selects,
   * leases being matched on their lease name; with no term nothing is selected.
   */
  lemma SearchSelects(db: Tables, query: string, site: Option<string>)
    ensures var r, terms := SearchResourcesByName(db, query, site), Terms(query);
      var params, n, given := QueryParams(terms, site), |terms|, SiteGiven(site);
      SelectedRows(r["servers"], db.servers, terms != [], params, n, given) &&
      SelectedRows(r["networks"], db.networks, terms != [], params, n, given) &&
      SelectedRows(r["routers"], db.routers, terms != [], params, n, given) &&
      SelectedRows(r["subnets"], db.subnets, terms != [], params, n, given) &&
      SelectedLeases(r["gpu_leases"], db.gpuLeases, terms != [], params, n, given) &&
      SelectedRows(r["floating_ips"], db.floatingIps, terms != [], params, n, given)
  {
    var terms := Terms(query);
    var params, n, given := QueryParams(terms, site), |terms|, SiteGiven(site);
    if terms != [] {
      FilterRowsMembers(db.servers, params, n, given);
      FilterRowsMembers(db.networks, params, n, given);
      FilterRowsMembers(db.routers, params, n, given);
      FilterRowsMembers(db.subnets, params, n, given);
      FilterLeasesMembers(db.gpuLeases, params, n, given);
      FilterRowsMembers(db.floatingIps, params, n, given);
    }
  }
}
