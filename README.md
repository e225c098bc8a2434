# resource-tracker, modelled in Dafny

resource-tracker keeps an inventory of OpenStack and Blazar resources in PostgreSQL. The model covers three parts of it:

- **The tracker** (`resource_tracker.py`) reconciles the live listing of servers, networks, routers, subnets and GPU leases with the stored tables. It updates known rows, inserts new ones and stamps `first_time_not_seen` on rows that vanished. Each lease's reservations are upserted the same way. One run is a single transaction that commits everything or rolls everything back.
- **The cleaner** (`resource_cleanup.py`) picks retirement candidates: rows created before a cutoff, never flagged absent and not on a protect list, oldest first. It deletes them in the order servers, routers, subnets, networks. Floating IPs are released first and routers are cleaned first. A failure on one resource never stops the next one. Finally it flags the recorded deletions in the database with one bulk update per kind. A dry run does nothing.
- **The search** (`resource_search.py`) cuts a query at `*` into terms. It returns, for six kinds, the rows whose name contains every term and, when a site is given, whose site equals it.

Files and what each models:

| file | module | what it models |
|---|---|---|
| `wrappers.dfy` | `Wrappers` | `Option` and `Result` |
| `inventory.dfy` | `Inventory` | the stored rows and the class `Inventory` holding the six tables as maps |
| `listing.dfy` | `Listing` | the objects the provider lists, and the row each becomes, defaults included |
| `reconcile.dfy` | `Reconcile` | one table's pass as a fold (`Reconciled`), the loop `SyncTable` proved against it, and its invariants |
| `reservations.dfy` | `Reservations` | one lease's reservation upsert |
| `tracker.dfy` | `Tracker` | the class `ResourceTracker`, with one method per `update_*` and the transaction `UpdateResources` |
| `selection.dfy` | `Selection` | `get_resources_to_delete` (filter plus stable sort) and the `hours < 1` check |
| `cloud.dfy` | `Cloud` | the provider as an oracle that says which calls raise, and a gateway class that logs every call issued |
| `cleanup.dfy` | `Cleanup` | release, router clean-up, the four deletion phases, the bulk update, and the class `ResourceCleaner` |
| `search.dfy` | `Search` | split, strip, terms, parameters, SQL `LIKE`, and the six-list result |

Modelling choices:

- **Time:** timestamps are integers (seconds), and `now` is a parameter. The cutoff is `now - hours * 3600`.
- **Tables:** a table is a `map` from id to row. A listing is a `seq` in provider order.
- **Key errors:** an `INSERT` that hits an existing key makes the pass return `None`.
- **Duplicate ids in one listing** are modelled, not excluded. A new id listed twice is inserted twice, so the second `INSERT` hits the primary key and the whole transaction rolls back. A stored id listed twice is updated twice, and the later listing wins.
- **Reservation ids:** an id stored under a different lease is not in that lease's `existing_ids`. It is therefore inserted, and the insert fails.
- **The cloud:**
  - The cloud is a `Provider` value. It holds the set of calls that raise, the floating IPs and the ports of each router.
  - The `CloudGateway` class records every call issued. Each cleaner method is proved to issue exactly the calls of a specification function, in order.
- **`clean_router` failures:** when an interface port fails to detach, or has no fixed IP, `clean_router` re-raises. The router is then neither deleted nor recorded, and the loop moves on to the next router.
- **Port listing order:** `network.ports(...)` is lazy in openstacksdk. The port listing call is therefore issued after the gateway is cleared, and the model issues it in that order.
- **Search parameters:** an empty site string is falsy in Python, so it adds no site filter.
- **SQL `LIKE`:** `%` matches any run of characters, `_` matches any single character, and every other character matches itself.

## Model

| member | source | states |
|---|---|---|
| Reconcile.SyncTable | resource_tracker.py:71-134 | the per-kind loop (collect ids, then UPDATE a known id or INSERT a new one, then the bulk absence stamp) fails exactly when `Reconciled` fails, and otherwise leaves exactly `Reconciled`'s table |
| Reconcile.Upserted | resource_tracker.py:81-124 | the upsert loop only adds keys: every stored key is still there afterwards |
| Reconcile.UpsertedFailurePersists | resource_tracker.py:114-124 | once an INSERT has failed, the rest of the listing cannot make the loop succeed |
| Reconcile.UpsertedSucceeds | resource_tracker.py:98-124 | the loop fails exactly when an id not stored before the pass is listed twice |
| Reconcile.ReconcileSucceeds | resource_tracker.py:76-124 | a pass succeeds exactly when no new id is listed twice |
| Reconcile.ReconcileKeys | resource_tracker.py:76-134 | no row is removed: the keys after a pass are the stored keys plus the listed ids |
| Reconcile.ReconcileListed | resource_tracker.py:98-124 | with distinct ids, each listed id holds the listing's values; a known row keeps its created time, absence stamp and deleted flag; a new row is inserted unflagged and unstamped |
| Reconcile.ReconcileLastSeen | resource_tracker.py:85-111 | every listed id ends with `last_seen_time` equal to the pass time |
| Reconcile.ReconcileUnlisted | resource_tracker.py:126-134 | a stored id missing from the listing gets the pass time as `first_time_not_seen` if that was null, and is otherwise left unchanged |
| Reconcile.ReconcileStable | resource_tracker.py:98-134 | a stored row never changes its created time or deleted flag; a set absence stamp never changes; a reappearing row keeps its stamp; a new row has none |
| Reconcile.ReconcileIdempotent | resource_tracker.py:76-134 | a second pass over a re-listing of the same ids, built at a later time, succeeds, adds no key and changes no `first_time_not_seen` |
| Reconcile.ReconcileKeysMatch | resource_tracker.py:98-124 | every row stays stored under its own id |
| Listing.GroupNames | resource_tracker.py:94 | one entry per security group, each being that group's `name` if it has one |
| Listing.ServerRecord | resource_tracker.py:85-96 | a listed server becomes a row stamped at the pass time, with the flavor and image ids taken through `IdOf` |
| Listing.NetworkRecord | resource_tracker.py:154-162 | a listed network becomes a row stamped at the pass time |
| Listing.RouterRecord | resource_tracker.py:215-223 | a listed router becomes a row stamped at the pass time |
| Listing.SubnetRecord | resource_tracker.py:276-286 | a subnet row always has status `ACTIVE` |
| Listing.LeaseRecord | resource_tracker.py:343-356 | a lease row's `degraded` is false when the lease omits it, and is otherwise the listed value |
| Listing.ReservationRecord | resource_tracker.py:416-430 | a reservation defaults to `missing_resources = resources_changed = false`, empty properties and `min_hosts = max_hosts = 1` |
| Reservations.UpsertReservation | resource_tracker.py:432-460 | one reservation write only adds keys |
| Reservations.ReservationsUpserted | resource_tracker.py:403-460 | one lease's reservation pass only adds keys |
| Reservations.ReservationsFailurePersists | resource_tracker.py:446-460 | once a reservation INSERT has failed, the lease's pass fails |
| Reservations.ReservationsKeys | resource_tracker.py:403-460 | reservations are only ever added: the keys after the pass are the stored ones plus the listed ids |
| Reservations.ReservationsUnlisted | resource_tracker.py:403-460 | a stored reservation the listing omits is left exactly as it was, since reservations have no absence stamp |
| Reservations.ReservationsOfLease | resource_tracker.py:416-418 | after the pass, every listed reservation is stored under this lease |
| Reservations.ReservationsForeignIdFails | resource_tracker.py:406-408 | a listed reservation id stored under another lease is not in this lease's existing ids, so it is inserted and the pass fails |
| Reservations.ReservationsStable | resource_tracker.py:434-445 | the UPDATE never changes a stored reservation's lease or created time |
| Tracker.LeasesUpserted | resource_tracker.py:338-387 | the lease loop, with each lease's reservations, only adds lease keys |
| Tracker.LeaseStep | resource_tracker.py:358-387 | one lease and its reservations only add lease keys |
| Tracker.LeasesFailurePersists | resource_tracker.py:358-387 | once a lease step has failed, the rest of the leases cannot make the loop succeed |
| Tracker.LeasesUpsertedTable | resource_tracker.py:338-384 | the `gpu_leases` table goes through exactly the generic upsert loop |
| Tracker.LeasesTable | resource_tracker.py:329-401 | `update_gpu_leases` leaves `gpu_leases` exactly as the generic pass does, so every Reconcile lemma applies to leases |
| Tracker.LeasesReservations | resource_tracker.py:386-387 | over all leases, the reservation keys grow by exactly the listed ids, and a reservation that no listed lease mentions is unchanged |
| Tracker.PassSucceeds | resource_tracker.py:466-494 | the transaction commits exactly when no new id is listed twice among servers, networks, routers and subnets and the lease step succeeds; a commit also implies no new lease id is listed twice |
| Tracker.RelistedIds | resource_tracker.py:76-97 | re-listing the same cloud objects at another time gives rows with the same ids, so a later pass meets ReconcileIdempotent's condition |
| Tracker.PassKeysMatch | resource_tracker.py:480-488 | after a commit, every row of the five resource tables is stored under its own id |
| Tracker.PassMonotone | resource_tracker.py:466-494 | a commit removes no row from any of the six tables and keeps every set absence stamp of servers, networks, routers, subnets and GPU leases (reservations have none) |
| Tracker.ResourceTracker.UpdateServers | resource_tracker.py:71-138 | the servers table becomes `Reconciled` of the listing, and `ok` is false exactly when a key error raised |
| Tracker.ResourceTracker.UpdateNetworks | resource_tracker.py:140-199 | the same contract as `UpdateServers`, for networks |
| Tracker.ResourceTracker.UpdateRouters | resource_tracker.py:201-260 | the same contract as `UpdateServers`, for routers |
| Tracker.ResourceTracker.UpdateSubnets | resource_tracker.py:262-327 | the same contract as `UpdateServers`, for subnets |
| Tracker.ResourceTracker.UpdateGpuLeaseReservations | resource_tracker.py:403-464 | the reservation table becomes `ReservationsUpserted` for the lease |
| Tracker.ResourceTracker.UpdateGpuLease | resource_tracker.py:339-387 | one iteration of the lease loop leaves what `LeaseStep` computes |
| Tracker.ResourceTracker.UpdateGpuLeases | resource_tracker.py:329-401 | the lease and reservation tables become `LeasesReconciled` |
| Tracker.ResourceTracker.UpdateResources | resource_tracker.py:466-500 | the five kinds run in order with one pass time; if the fetch or any step raises, all six tables are exactly as before; otherwise they hold `Pass`; the key invariant is kept |
| Selection.Candidates | resource_cleanup.py:69-120 | a row is a candidate exactly when it was scanned, was created before the cutoff, was never flagged absent and is not protected by name |
| Selection.InsertByCreated | resource_cleanup.py:77 | inserting into a list sorted by created time keeps it sorted and adds one row |
| Selection.InsertPermutes | resource_cleanup.py:77 | insertion adds exactly the new row and loses nothing |
| Selection.SortByCreated | resource_cleanup.py:77 | `ORDER BY created_time ASC`: the result is sorted and is a permutation of the input |
| Selection.OldestFirstExact | resource_cleanup.py:69-120 | each query's result is oldest first, is a permutation of the candidates, and holds exactly the rows satisfying the WHERE clause |
| Selection.UnprotectedSelection | resource_cleanup.py:69-79 | without a protect list, a row is selected exactly when it is old enough and never flagged absent |
| Selection.SelectionSound | resource_cleanup.py:57-122 | servers and routers are selected exactly when old enough and never flagged absent; networks and subnets also need a name not on their protect list; all four lists are oldest first |
| Selection.ProtectedNeverRetired | resource_cleanup.py:52-55 | networks named `public` or `sharednet1`, and the subnet `sharednet1-subnet`, are never selected |
| Selection.SelectedFromTable | resource_cleanup.py:69-120 | over a full scan of a table, a stored row is selected exactly when it qualifies |
| Selection.Plan | resource_cleanup.py:309-316 | fewer than one hour is rejected before anything is selected; otherwise the plan is `ResourcesToDelete` |
| Cloud.CloudGateway.Send | resource_cleanup.py:228-241 | each call is appended to the issued log, and it returns exactly when the provider accepts it |
| Cleanup.FloatingAddrsMembers | resource_cleanup.py:161-165 | a network's released addresses are exactly the `addr` values of its entries of type `floating` with a non-empty `addr` |
| Cleanup.ServerFloatingAddrsMembers | resource_cleanup.py:161-162 | a server's released addresses are those of all its networks |
| Cleanup.FirstWithAddress | resource_cleanup.py:171-175 | finds nothing exactly when no listed IP has the address; otherwise finds the first listed IP that has it |
| Cleanup.NetworkReleaseByAddress | resource_cleanup.py:162-177 | walking one network's entries issues the release calls of its floating addresses, in order |
| Cleanup.ServerReleaseByAddress | resource_cleanup.py:161-177 | walking a server's networks issues the release calls of all its floating addresses, in order |
| Cleanup.ReleaseTargets | resource_cleanup.py:169-177 | releasing only lists the floating IPs and deletes, for some given address, the first listed IP with that address |
| Cleanup.ReleaseComplete | resource_cleanup.py:169-177 | when the listing succeeds, every address with a matching IP gets that IP deleted, even if other deletes fail |
| Cleanup.ReleaseListsOncePerAddress | resource_cleanup.py:170 | the IPs are listed exactly once per floating address |
| Cleanup.ServerRelease | resource_cleanup.py:156-177 | releasing a server's IPs deletes only first matches of its floating entries; when the listing succeeds, it deletes every such match |
| Cleanup.DetachProperties | resource_cleanup.py:197-203 | detaching removes only this router's interface ports, by the subnet of their first fixed IP; it succeeds exactly when every call returned and every interface port has a fixed IP, and then every interface port was detached |
| Cleanup.DetachFailurePersists | resource_cleanup.py:197-208 | after a detach raises, the later ports issue no call |
| Cleanup.CleanRouterProperties | resource_cleanup.py:179-208 | clearing the gateway happens exactly when the row has one; every call targets this router; success means no call raised and every interface port was detached |
| Cleanup.AttemptOneCalls | resource_cleanup.py:227-282 | one resource's calls belong to its phase; the only resource delete among them is its own, issued unless its router clean-up failed; its id is recorded exactly when that delete returned |
| Cleanup.PhaseRecorded | resource_cleanup.py:227-282 | a phase records exactly the ids whose delete call it issued and that returned |
| Cleanup.PhaseRecordedInOrder | resource_cleanup.py:237-278 | a phase records ids in input order: the recorded list is a subsequence of the input ids |
| Cleanup.PhaseKinds | resource_cleanup.py:227-282 | every call of a phase belongs to that phase's kind |
| Cleanup.PhaseTargets | resource_cleanup.py:227-282 | every resource delete of a phase targets one of its items, and a router only after its clean-up succeeded |
| Cleanup.PhaseAttempts | resource_cleanup.py:239-241 | every item is attempted whatever happened to the ones before it; a router is deleted once its clean-up succeeded |
| Cleanup.RouterCleanFailureSkipsDelete | resource_cleanup.py:250-258 | a router whose clean-up raised is neither deleted nor recorded |
| Cleanup.DeletionOrder | resource_cleanup.py:226-282 | all calls follow the phase order: servers, then routers, then subnets, then networks |
| Cleanup.DeletionRecordedKind | resource_cleanup.py:218-282 | for one kind, the run records exactly what that kind's phase records |
| Cleanup.DeletionRecorded | resource_cleanup.py:218-282 | for every kind, the deleted list holds exactly the ids whose delete call was issued and returned, in selection order |
| Cleanup.CleanupTargetsOnlyRetirable | resource_cleanup.py:57-282 | end to end, every resource delete targets a scanned row of its kind that is old enough, never flagged absent and not protected |
| Cleanup.MarkDeletedEffect | resource_cleanup.py:285-296 | the bulk update adds and removes no row; it flags each recorded row deleted and stamps its update time, changing nothing else; every other row is unchanged; with no ids nothing changes |
| Cleanup.ResourceCleaner.ReleaseAddress | resource_cleanup.py:169-177 | issues exactly `ReleaseOne`: list the IPs, then delete the first match, swallowing errors |
| Cleanup.ResourceCleaner.ReleaseNetwork | resource_cleanup.py:162-177 | issues exactly the release calls of one network's entries |
| Cleanup.ResourceCleaner.ReleaseFloatingIps | resource_cleanup.py:156-177 | a dry run issues no call; otherwise issues exactly `ReleaseCalls` |
| Cleanup.ResourceCleaner.DetachInterfaces | resource_cleanup.py:197-204 | issues exactly `DetachAll`'s calls, and fails exactly as `DetachAll` does |
| Cleanup.ResourceCleaner.CleanRouter | resource_cleanup.py:179-208 | a dry run issues no call and succeeds; otherwise issues `CleanRouterOutcome`'s calls, and fails exactly as it does |
| Cleanup.ResourceCleaner.RetireServer | resource_cleanup.py:228-241 | issues one server's release and delete calls, and returns whether its id is recorded |
| Cleanup.ResourceCleaner.RetireRouter | resource_cleanup.py:245-258 | issues one router's clean-up and delete calls, and returns whether its id is recorded |
| Cleanup.ResourceCleaner.DeleteServers | resource_cleanup.py:226-241 | issues exactly the server phase's calls and returns its recorded ids |
| Cleanup.ResourceCleaner.DeleteRouters | resource_cleanup.py:243-258 | issues exactly the router phase's calls and returns its recorded ids |
| Cleanup.ResourceCleaner.DeletePlain | resource_cleanup.py:260-282 | issues exactly the subnet or network phase's calls and returns its recorded ids |
| Cleanup.ResourceCleaner.RunPhases | resource_cleanup.py:217-282 | issues exactly `DeletionRun`'s calls and returns its deleted lists |
| Cleanup.ResourceCleaner.FlagDeleted | resource_cleanup.py:284-296 | each of the four tables becomes `MarkDeleted` of its recorded ids, and every row stays stored under its own id |
| Cleanup.ResourceCleaner.DeleteResources | resource_cleanup.py:210-300 | a dry run issues no call, writes nothing and records nothing; otherwise the calls and deleted lists are `DeletionRun`'s, and the tables are flagged by `MarkDeleted`; every row stays stored under its own id |
| Search.Lstrip | resource_search.py:38 | drops exactly the leading whitespace (Python's `str.isspace` set) and keeps a suffix starting with a non-space |
| Search.Rstrip | resource_search.py:38 | drops exactly the trailing whitespace and keeps a prefix ending with a non-space |
| Search.StripProperties | resource_search.py:38 | `strip()` leaves a run of the original characters that starts and ends with a non-space, and leaves nothing exactly when the piece is all whitespace |
| Search.Split | resource_search.py:37 | `split('*')` always yields at least one piece |
| Search.SplitPiecesHaveNoStar | resource_search.py:37 | no piece contains `*` |
| Search.JoinSplit | resource_search.py:37 | joining the pieces with `*` gives back the query |
| Search.SplitJoin | resource_search.py:37 | splitting `*`-joined star-free pieces gives back the pieces |
| Search.TermsWellFormed | resource_search.py:37-38 | no term is empty, none contains `*`, and none starts or ends with whitespace |
| Search.TermsEmpty | resource_search.py:37-42 | the query has no term exactly when it holds nothing but `*` and whitespace |
| Search.QueryParams | resource_search.py:45-48 | the parameters are the terms wrapped as `%term%` in order, plus the site last when a non-empty one is given |
| Search.LikeMeansContains | resource_search.py:58 | for a term without `%` or `_`, `name LIKE '%term%'` holds exactly when the name contains the term |
| Search.WhereMeansMatches | resource_search.py:44-60 | the WHERE clause built from the parameters holds exactly when the name contains every term and, when a site is given, the row's site equals it |
| Search.FilterRowsMembers | resource_search.py:55-67 | a row is returned exactly when the WHERE clause holds for it |
| Search.FilterLeasesMembers | resource_search.py:115-127 | a lease is matched on its lease name and reported under the resource keys |
| Search.SearchTerms | resource_search.py:27-42 | the result always has exactly the six keys, and every list is empty when there is no term |
| Search.SearchMeaning | resource_search.py:22-151 | for queries whose terms hold no `%` or `_`: each of the six lists holds exactly the rows of its table whose name contains every term and whose site is the given one, GPU leases matched on their lease name |
| Search.SearchSelects | resource_search.py:22-151 | for every query: each of the six lists holds exactly the rows of its table for which the issued `LIKE`/site clause holds, none when there is no term, GPU leases matched on their lease name |

## Left out

- Authentication, the client constructors and the listing calls (`fetch_current_resources`) are not modelled. The listing arrives as an input value, and a failed fetch as `None`.
- The floating-IP list, and each router's port list, are fixed for the whole run. In reality the provider can change them between calls.
- SQL text, connections and cursors are not modelled. Each table is a map; a transaction computes on the tables and then commits or restores them.
- `get_resources_to_delete` raising on a database error is not modelled. Neither is a database error in the bulk update of `delete_resources`. Only key errors of the tracker's `INSERT`s are modelled as failures.
- A row missing `resource_id` (a `KeyError` in the cleaner's loops, where the except clause would then name an unbound variable) is not modelled: rows always have an id.
- Logging, `display_resources` and its table output, argparse, dotenv and the `main` functions are left out, except for the `hours < 1` check. The `main` of `resource_search.py` calls a tracker constructor and a method that `resource_tracker.py` does not define, so it is left out too.
- A dry run of `release_floating_ips` and of `clean_router` only logs, so the model issues no call.
- JSON payloads (`addresses` apart from the shape that floating-IP release reads, `allocation_pools`, `resource_properties`) are opaque values. Of `external_gateway_info`, the model keeps only whether it is truthy.
- Search ordering: the SQL has no `ORDER BY`, so the row order is unspecified. The model returns scan order.
- Search collation and case rules, and the backslash escape of PostgreSQL's `LIKE`, are not modelled. Search works on characters, not bytes.
- Search.WhereMeansMatches: proved only for terms with no `%` or `_`. Such a character in a term acts as a wildcard, because the code does not escape it.
- Search.LikeMeansContains: holds only for terms with no `%` or `_`, for the same reason.
- Search.SearchMeaning: the substring reading holds only for queries whose terms have no `%` or `_`. Search.SearchSelects states the result for every query in terms of the `LIKE` clause itself.
- The search reads its six tables as given. The `floating_ips` table and the `project_site` column are not written by the tracker code, so no tracker member fills them.
