# Verification of the event pipeline

A Dafny model of the parts of the repository where state machines and algorithms decide what users see: the ingest
pipeline and its bus (V1), the projection of events into an access-controlled temporal graph (V2), and two helpers, the
secret redaction and the polling bridge. `dafny verify dfyconfig.toml` checks everything.

The modules follow the program. Objects that update their fields are classes whose methods are proved against functions
on values; claims about whole runs and interleavings are lemmas about step machines built from the same functions.

| part | modules |
|---|---|
| values and order | Text, Numbers, Sorting, GraphModel |
| graph store and its queries | Reach, PathSearch, NeighborhoodSearch, GraphOps, Listing, GraphStore, NonInterference, SqlStore, RowOrder |
| projection and membership | EventMapping, Schema, Membership, Projection, Recorded, Facts, MemberHistory, Convergence, StateHistory, Tenancy, Persistence |
| log consumer | Projector (every run with crashes), ConsumeLoop (the loop itself) |
| conflicts | Signals, Conflicts, ConflictListing, IntentFlow |
| bus | Bus (one topic), BusInterleaving (publishers and readers of one group) |
| ingest | Dedup, RateLimit, Ingest (concurrent requests), Pipeline (one request) |
| event journal and access lists | EventStore, AclCache |
| helpers | Redact, Bridge |

## Where the code falls short of what it promises

Each of these is a lemma with the exact condition or a concrete run.

- Projection records an event id before it applies the event; a crash in between loses the effect for good, although the
  consumer is described as committing offsets after projection (`Projector.CrashAfterMarkLosesEffect`). A failed membership
  write of an event is swallowed and lost while everything else goes on (`Projector.SwallowedFailureLosesMembership`).
  Graph and membership are those of one uninterrupted pass, whenever the loop stands between two records, exactly when
  no step of the run left something out (`Projector.AlwaysOnePassIff`).
- Two overlapping reads of one group can rewind the shared cursor (`BusInterleaving.CursorCanGoBack`);
  `BusInterleaving.OnceInOrderIff` says exactly which interleavings deliver once and in order. Nothing is ever skipped.
- `recv` can hand over a message a second time (`Bus.WaitDeliversTwice`), from a wait that finds the log read up and an old
  live copy outstanding (`Bus.DeliveredOnceIff`). A message the group has never read is handed over only if some publisher
  stalls between the log and the live channel (`Bus.UnreadCopy`), with the sizes in the code for at least 17,232 later
  messages (`Bus.OnlyRedeliveriesIff`).
- An ingest that fails after its claim has expired releases the claim of its retry (`Ingest.LateReleaseRobs`). A release is
  harmless exactly when it takes nobody's live claim (`Ingest.ReleaseSafeIff`), and every other one can be followed by two
  processed deliveries (`Ingest.RobbedClaimLetsTwoThrough`).
- The access cache fills in two steps, so a revocation can slip in between and leave a removed group in the cache
  (`AclCache.RevokedGroupServed`); `AclCache.CoherentRunIff` says exactly which runs are safe.
- The event journal is described as keeping the higher version; the comparison is computed and ignored
  (`EventStore.LowerVersionOverwrites`, and `EventStore.KeepsRuleIff` for when that makes no difference). An event that
  changes its resource stays in the old list (`EventStore.MovedEventStillServed`, `EventStore.RunConsistentIff`).
- The SQL store keeps type, ends and event of the first write of an edge id, the store in memory those of the last. They
  part over ids that stand for two edges (`SqlStore.AlwaysSameEdgesIff`), which the unescaped bar in stable ids makes
  possible (`SqlStore.MembershipsCollide`). The SQL store also hides the states of hidden nodes, the store in memory does
  not, so some caller gets different states unless every node is as open as its states (`SqlStore.StateQueriesAgreeIff`).
- Edge ids join their parts with a bar as well, so with a bar in an event id a block a pull request names can take the
  place of an earlier one (`Facts.BlocksCollide`). `Facts.StoredIff` says exactly what a run keeps; without bars in event
  ids every block is kept (`Facts.NamedBlocksAreStored`).
- Conflict ids join node ids with a character that node ids may contain, so two conflicts can have one id and only one is
  shown (`Conflicts.MutualBlocksAlike`, `Conflicts.OnePerConflictIff`).
- The conflict listing is described as including the friction of work items; it looks only at work joined to a BLOCKS or
  ABOUT edge (`ConflictListing.FrictionListedIff`).
- The `Retry-After` hint is rounded down, so it is too early unless less than a second is missing
  (`RateLimit.HintSufficesIff`).
- A secret is safely gone from every redacted body exactly when, laid across the mark at any overlap, it
  differs from it somewhere (`Redact.SafeIff`). Without brackets: exactly when it is no part of the word REDACTED
  (`Redact.BracketFreeSafeIff`).
- Importing a graph snapshot twice duplicates edges (`Persistence.ReimportBreaksUniquenessIff`), and users of a tenant
  that is empty or contains a bar do not survive a restart (`Persistence.RestartUnnoticedIff`).
- A path from a node to itself is never found (`PathSearch.PathFoundIff`).
- States other than OPEN, CLOSED and MERGED tie without a ranking, so the last writer wins
  (`GraphOps.MergeOrderIndependentIff`); the database rule lets a CLOSED replace a MERGED of the same time
  (`Convergence.RulesAgreeIff`), so the stores part over inputs that hold such a pair and over no others
  (`Convergence.RunRulesAgreeIff`).

## Model

| member | source | states |
|---|---|---|
| `GraphStore.InMemoryGraphStore.constructor` | vertical-2/crates/graph-core/src/store.rs:104-115 | a new store holds the empty graph |
| `GraphStore.InMemoryGraphStore.MarkEventApplied` | vertical-2/crates/graph-core/src/store.rs:247-254 | answers true only for the first sight of an event id in its tenant, and records it |
| `GraphStore.InMemoryGraphStore.ApplyMutation` | vertical-2/crates/graph-core/src/store.rs:256-310 | the whole new graph: nodes overwritten by id, edges replaced in place by id or appended, states merged, nothing else touched, well-formedness kept |
| `GraphStore.InMemoryGraphStore.PutAllEdges` | vertical-2/crates/graph-core/src/store.rs:261-273 | the edge part of a mutation: replaced in place at the position of the id, or appended in order |
| `GraphStore.InMemoryGraphStore.MergeAllStates` | vertical-2/crates/graph-core/src/store.rs:274-307 | the state part of a mutation as the specified sequence of merges, whose outcome `StateHistory.PutStatesKeepsWinner` describes |
| `StateHistory.PutStatesKeepsWinner` | vertical-2/crates/graph-core/src/store.rs:274-307 | for every key and every value: of what was stored and what arrives from different events the latest is kept; at one instant MERGED before CLOSED before OPEN before all else, and of those of one rank the last |
| `StateHistory.WinnerIsUnique` | vertical-2/crates/graph-core/src/store.rs:274-307 | these words leave no choice: one arrival at most fits them |
| `StateHistory.PutStatesKeepsNewest` | vertical-2/crates/graph-core/src/store.rs:274-307 | whatever events the states come from, the one kept is one of them and none is later |
| `GraphStore.InMemoryGraphStore.GetNode` | vertical-2/crates/graph-core/src/store.rs:312-327 | a node is found exactly when it is stored, belongs to the caller's tenant, and is public or shared with one of the caller's groups |
| `GraphStore.InMemoryGraphStore.GetState` | vertical-2/crates/graph-core/src/store.rs:329-364 | a state is served exactly when it is stored and public or shared with one of the caller's groups, whether or not its node is visible |
| `GraphStore.InMemoryGraphStore.Path` | vertical-2/crates/graph-core/src/store.rs:433-512 | the breadth-first loop over queue, distances and predecessors answers as the specified search on the caller's view; it terminates and its predecessor lookups never fail |
| `GraphStore.InMemoryGraphStore.Relax` | vertical-2/crates/graph-core/src/store.rs:464-508 | one pass over all stored edges from one node, skipping hidden and inactive ones, is one scan of the search |
| `GraphStore.InMemoryGraphStore.WalkBack` | vertical-2/crates/graph-core/src/store.rs:483-493 | the walk back over predecessors, pushed and then reversed, is the walk from the source; it terminates |
| `GraphStore.InMemoryGraphStore.Neighborhood` | vertical-2/crates/graph-core/src/store.rs:366-431 | the layered loop answers as the specified layered search on the caller's view; an invisible root is an error |
| `GraphStore.InMemoryGraphStore.FollowEdges` | vertical-2/crates/graph-core/src/store.rs:388-418 | one frontier node: every stored edge in order, edges deduplicated by id, new far ends queued |
| `GraphStore.InMemoryGraphStore.Blockers` | vertical-2/crates/graph-core/src/store.rs:514-534 | the live visible block edges at a node, in store order |
| `Listing.BlockersExact` | vertical-2/crates/graph-core/src/store.rs:514-534 | those are the stored edges of type BLOCKS or BLOCKED_BY with the node at either end that the caller may see and that are in force |
| `GraphStore.InMemoryGraphStore.ListNodesByType` | vertical-2/crates/graph-core/src/store.rs:558-578 | the answer does not depend on the order in which the hash map is visited |
| `GraphStore.InMemoryGraphStore.ListEdgesByType` | vertical-2/crates/graph-core/src/store.rs:580-603 | the sorted and truncated live visible edges of a type |
| `GraphStore.InMemoryGraphStore.Snapshot` | vertical-2/crates/graph-core/src/store.rs:605-673 | node and edge lists of a snapshot, again independent of the visiting order |
| `PathSearch.PathFoundIff` | vertical-2/crates/graph-core/src/store.rs:433-512 | a path is found exactly when the end points are different, visible and joined by a walk of visible live edges no longer than the clamped limit |
| `PathSearch.PathIsShortest` | vertical-2/crates/graph-core/src/store.rs:433-512 | the path returned is such a walk, node by node, and no walk at all is shorter |
| `PathSearch.SearchOutcome` | vertical-2/crates/graph-core/src/store.rs:452-512 | the search ends with the right distance and a predecessor tree, and from a node to itself with nothing |
| `PathSearch.SearchCorrect` | vertical-2/crates/graph-core/src/store.rs:458-510 | queue, distances and predecessors stay a breadth-first tree throughout the search |
| `NeighborhoodSearch.NeighborhoodNodes` | vertical-2/crates/graph-core/src/store.rs:366-431 | the nodes are, once each, exactly those within the clamped number of hops |
| `NeighborhoodSearch.NeighborhoodEdges` | vertical-2/crates/graph-core/src/store.rs:366-431 | the edges are, once each, exactly the live visible ones with both ends visible and one end nearer than the limit; both ends are returned |
| `Reach.NearIffWalk` | vertical-2/crates/graph-core/src/store.rs:452-510 | breadth-first layers and walks describe the same distance |
| `Listing.ListedNodesExact` | vertical-2/crates/graph-core/src/store.rs:558-578 | the first nodes of the type in id order, nothing left out comes before anything returned |
| `Listing.ListedEdgesExact` | vertical-2/crates/graph-core/src/store.rs:580-603 | the same for edges |
| `Listing.ListedNodesById` | vertical-2/crates/graph-core/src/store.rs:558-578 | no node left out of a listing has a smaller id than one in it |
| `Listing.ListedEdgesById` | vertical-2/crates/graph-core/src/store.rs:580-603 | no edge does |
| `Listing.SnapshotExact` | vertical-2/crates/graph-core/src/store.rs:605-673 | first nodes by rank, first story edges; a cut node list makes the snapshot closed under its edges |
| `Listing.SnapshotNodesByTier` | vertical-2/crates/graph-core/src/store.rs:620-639 | no node left out is of an earlier tier (people, repositories, pull requests, issues, intents, teams and channels, the rest, commits) than one in the snapshot, or of the same tier with a smaller id |
| `Listing.SnapshotEdgesByTier` | vertical-2/crates/graph-core/src/store.rs:655-671 | no edge left out is of an earlier tier (blocks, claims, authorship, belonging, checks, the rest, pushes) than one in the snapshot, or of the same tier and newer |
| `Text.LeMeans` | vertical-2/crates/graph-core/src/store.rs:575 | ids are compared as texts: the beginning of a text comes before it, else the first difference decides |
| `Listing.VisitOrderIrrelevant` | vertical-2/crates/graph-core/src/store.rs:612-641 | sorting makes the answer independent of the order in which nodes are visited |
| `NonInterference.SameAnswers` | vertical-2/crates/graph-core/src/store.rs:219-229 | two stores that agree on what a caller sees answer path, neighbourhood, blockers, both listings and the snapshot alike, whatever else they hold |
| `NonInterference.UnseenMutationUnnoticed` | vertical-2/crates/graph-core/src/store.rs:256-310 | a mutation that neither writes nor overwrites anything visible leaves every answer as it was |
| `GraphOps.MergeOrderIndependentIff` | vertical-2/crates/graph-core/src/store.rs:274-307 | two states arriving in either order end with the same time and value exactly unless they tie without a ranking |
| `GraphOps.ApplyKeepsWellFormed` | vertical-2/crates/graph-core/src/store.rs:256-310 | edge ids stay unique per tenant, keys match the records |
| `SqlStore.SameEdgesIff` | vertical-2/crates/graph-core/src/store_crdb.rs:162-191 | after any sequence of edge writes the SQL table, which keeps event, type and ends of the first write, and the store in memory hold the same edges up to the event exactly when the first and the last write of every id agree on type and ends |
| `SqlStore.AlwaysSameEdgesIff` | vertical-2/crates/graph-core/src/store_crdb.rs:162-191 | they do after every single write exactly when no two writes share an id but not type and ends |
| `SqlStore.StableIdsCollide` | vertical-2/crates/graph-core/src/ids.rs:61-71 | two memberships whose parts contain the bar share one stable id, and writing both sets the stores apart |
| `SqlStore.MembershipsCollide` | vertical-2/crates/graph-core/src/project.rs:573-628 | two team events do that to a run |
| `SqlStore.RunWrites` | vertical-2/crates/graph-core/src/project.rs:23-68 | the edges of every run are those of the writes of its unseen inputs, in order |
| `SqlStore.StateQueriesAgreeIff` | vertical-2/crates/graph-core/src/store_crdb.rs:245-284 | on one graph every caller gets the same states from both stores exactly when the node of every state that somebody may see is stored and at least as open as the state |
| `RowOrder.RunsSeeSameEdges` | vertical-2/crates/graph-core/src/store_crdb.rs:287-424 | after every run in which the first and the last write of every edge id agree on type and ends, both stores search the same visible live edges, up to order and event |
| `RowOrder.PathLengthsAgree` | vertical-2/crates/graph-core/src/store_crdb.rs:350-424 | on such edges the SQL store finds a path exactly when the memory store does, and an equally long one |
| `RowOrder.NeighborhoodsAgree` | vertical-2/crates/graph-core/src/store_crdb.rs:287-348 | on such edges the SQL store returns the same nodes around a root, and the same edges up to order and event |
| `EventMapping.MapEventSound` | vertical-2/crates/graph-core/src/project.rs:150-887 | every event of every kind maps to nodes, edges and states of its own tenant, in which only BLOCKS edges may point outside the mutation; pull requests and issues write exactly one state |
| `EventMapping.MergeIntentSound` | vertical-2/crates/graph-core/src/intent.rs:466-496 | attaching an intent keeps that and writes no state |
| `EventMapping.PullRequestSound` | vertical-2/crates/graph-core/src/project.rs:231-382 | the pull-request mapping with blocks and intent stays in its tenant, anchors every edge but the blocks, and writes exactly the lifecycle state; where its edges lead is `Facts.EdgesAreTold` |
| `EventMapping.IssueSound` | vertical-2/crates/graph-core/src/project.rs:439-571 | the issue mapping |
| `EventMapping.PushSound` | vertical-2/crates/graph-core/src/project.rs:630-748 | the push mapping with its commits |
| `Facts.RouteIsFirstFit` | vertical-2/crates/graph-core/src/project.rs:150-193 | every event is of the first kind whose words its type or category has |
| `Facts.EdgesAreTold` | vertical-2/crates/graph-core/src/project.rs:150-887 | for every event, type and two ids: such an edge is among the mapped ones exactly when the event says so; BLOCKS leads from the pull request of the event to the work id of a string in `blocks`, or from `from_resource_id` to `to_resource_id`, and so for every relation of every kind of event |
| `Facts.WorkCarriesAttributes` | vertical-2/crates/graph-core/src/project.rs:267-281 | the node of the pull request or issue carries all attributes of its event |
| `Facts.ActorIs` | vertical-2/crates/graph-core/src/project.rs:203-229 | the acting person is known by the global id, else by the id at the provider |
| `Facts.OneCoursePerEvent` | vertical-2/crates/graph-core/src/ids.rs:40-71 | no event writes two edges of different type or ends under one id |
| `Facts.StoredIff` | vertical-2/crates/graph-core/src/project.rs:23-68 | after any run an edge of given type and ends is stored exactly when some recorded event wrote it and no later one wrote another type or other ends under its id |
| `Facts.MomentsAreStored` | vertical-2/crates/graph-core/src/project.rs:23-68 | without bars in event ids every block, push, check and message told by a recorded event is stored |
| `Facts.NamedBlocksAreStored` | vertical-2/crates/graph-core/src/project.rs:339-371 | so is every block a pull request names, in that direction |
| `Facts.BlocksCollide` | vertical-2/crates/graph-core/src/ids.rs:40-58 | with a bar in an event id a later block of the same pull request can replace an earlier one |
| `Projection.ProjectEngine.ProjectEvent` | vertical-2/crates/graph-core/src/project.rs:23-68 | projects an event as the specified step, duplicates change nothing, the outcome says which case it was |
| `Projection.ProjectEngine.TryMembership` | vertical-2/crates/graph-core/src/project.rs:104-147 | the membership side effect of identity events as the specified change; a refused one is swallowed |
| `MemberHistory.InputMeans` | vertical-2/crates/graph-core/src/project.rs:104-147 | one input puts a user into a group exactly when its words add (add, join, created, or added_to_group), takes the user out exactly when they remove (remove, left, deleted, or removed_from_group), and leaves every other user and group as they were |
| `MemberHistory.InGroupIff` | vertical-2/crates/graph-core/src/project.rs:23-147 | after any run a user is in a group exactly when some recorded input adds the user to it and no later recorded one removes the user from it |
| `MemberHistory.OnRecordIff` | vertical-2/crates/graph-core/src/membership.rs:176-203 | a user is on record exactly when some recorded input once added the user to a group; removals do not forget |
| `Projection.ProjectEngine.ProjectAclRevocation` | vertical-2/crates/graph-core/src/project.rs:70-102 | a revocation is recorded before it is validated, so a refused one stays recorded |
| `Schema.MapEventOk` | vertical-2/crates/graph-core/src/project.rs:150-887 | every mapping writes only nodes whose type shows in their id and edges that join the right kinds in the right direction, all with the access rules and the time of the event, people and teams being public |
| `Schema.RunFitsSchema` | vertical-2/crates/graph-core/src/project.rs:150-887 | so does the graph of every run |
| `Projection.RunKeepsInvariants` | vertical-2/crates/graph-core/src/project.rs:23-68 | after every run edge ids are unique per tenant, tenants consistent, and only BLOCKS edges can dangle |
| `Projection.AppliedIds` | vertical-2/crates/graph-core/src/project.rs:24-28 | the recorded ids are exactly those of the inputs seen |
| `Recorded.NodeIsLast` | vertical-2/crates/graph-core/src/store.rs:256-260 | after any run the node under an id is the last one a recorded event wrote there |
| `StateHistory.StateIsWinner` | vertical-2/crates/graph-core/src/store.rs:274-307 | after any run, for every key and every value, the state is that of the latest recorded input that writes the key, at one instant of the highest ranking, of those the last; there is one as soon as one input writes it |
| `StateHistory.IssueStatusIsLatest` | vertical-2/crates/graph-core/src/project.rs:489-505 | an issue has the status that its latest recorded event names under `status`, else under `state`, else "unknown"; at one instant the last one not outranked |
| `StateHistory.CrdbKeeps` | vertical-2/crates/graph-core/src/store_crdb.rs:198-215 | by the database rule the latest time counts too; within one instant the last CLOSED or MERGED, and where there is none the first to arrive |
| `Convergence.LifecycleIsLatest` | vertical-2/crates/graph-core/src/project.rs:318-337 | after any run each pull request carries the lexicographic maximum of its events by time, then MERGED over CLOSED over OPEN |
| `Convergence.RunsConverge` | vertical-2/crates/graph-core/src/store.rs:274-307 | runs over the same inputs in any order, with any repetitions, agree on every lifecycle |
| `Convergence.CrdbConverges` | vertical-2/crates/graph-core/src/store_crdb.rs:198-215 | without a CLOSED and a MERGED at one instant the database rule reaches the same lifecycles, again in any order |
| `Convergence.RulesAgreeIff` | vertical-2/crates/graph-core/src/store_crdb.rs:198-215 | memory rule and database rule agree on lifecycle states of different events except when a stored MERGED meets a CLOSED of the same time |
| `Convergence.RunRulesAgreeIff` | vertical-2/crates/graph-core/src/store_crdb.rs:198-215 | the two rules give the same lifecycles in all runs over these inputs, in any order and with any repetitions, exactly when the inputs hold no CLOSED and MERGED of one pull request at one instant |
| `Tenancy.RunRestrict` | vertical-2/crates/graph-core/src/project.rs:23-102 | an interleaved run restricted to one tenant is that tenant's run alone |
| `Membership.InMemoryMembership.SetGroups` | vertical-2/crates/graph-core/src/membership.rs:163-174 | replaces the groups of one user of one tenant |
| `Membership.InMemoryMembership.AddGroup` | vertical-2/crates/graph-core/src/membership.rs:176-189 | adds one group |
| `Membership.InMemoryMembership.RemoveGroup` | vertical-2/crates/graph-core/src/membership.rs:191-203 | removes one group, keeping the user |
| `Membership.InMemoryMembership.ApplyChange` | vertical-2/crates/graph-core/src/membership.rs:220-240 | adds or removes by the change type, an unknown type is refused and changes nothing |
| `Membership.InMemoryMembership.ExportSnapshot` | vertical-2/crates/graph-core/src/membership.rs:70-84 | every user written under its joined key with its groups |
| `Membership.InMemoryMembership.ImportSnapshot` | vertical-2/crates/graph-core/src/membership.rs:86-98 | the entries whose key splits into two nonempty parts are restored, over what is there |
| `Membership.RoundTripIff` | vertical-2/crates/graph-core/src/membership.rs:70-98 | export and import restore the membership exactly when every tenant and user id is nonempty and no tenant contains a bar |
| `Persistence.ExportSnapshot` | vertical-2/crates/graph-core/src/store.rs:120-140 | nodes, edges in list order, states and applied ids of the whole store |
| `Persistence.ImportSnapshot` | vertical-2/crates/graph-core/src/store.rs:142-164 | nodes and states inserted, edges appended without looking for their ids |
| `Persistence.GraphRoundTrip` | vertical-2/crates/graph-core/src/store.rs:120-164 | importing an export into an empty store restores the graph exactly |
| `Persistence.ReimportBreaksUniquenessIff` | vertical-2/crates/graph-core/src/store.rs:142-164 | importing it into the store it came from keeps edge ids unique only if there are no edges |
| `Persistence.RestartUnnoticedIff` | vertical-2/crates/graph-core/src/membership.rs:70-98 | a restart after any run restores the system exactly when every recorded user belongs to a nonempty tenant without a bar |
| `Persistence.RestartedRun` | vertical-2/crates/graph-core/src/membership.rs:70-98 | where the tenants of the inputs are like that, a run with a restart in it ends like the run without |
| `Persistence.RecordedUsers` | vertical-2/crates/graph-core/src/project.rs:104-147 | in every run each recorded user has a nonempty id and belongs to the tenant of some input |
| `ConsumeLoop.MemoryOffsetStore.Save` | vertical-2/crates/graph-projector/src/main.rs:76-90 | the offset of one partition is replaced |
| `ConsumeLoop.MemoryOffsetStore.ResolveStart` | vertical-2/crates/graph-projector/src/main.rs:163-177 | the saved offset, or the earliest one of the broker |
| `ConsumeLoop.HandlePayload` | vertical-2/crates/graph-projector/src/main.rs:225-248 | one record value: projected, or skipped when it is not recognized; fails only for a refused revocation |
| `ConsumeLoop.ConsumeBatch` | vertical-2/crates/graph-projector/src/main.rs:258-345 | a batch is projected record by record, each offset saved behind its record, and ends early only at a refused revocation |
| `ConsumeLoop.RefetchCompletes` | vertical-2/crates/graph-projector/src/main.rs:285-335 | fetching again after an early end gets past that record and ends in the system of the uninterrupted run |
| `Projector.OffsetsNeverPassUnhandled` | vertical-2/crates/graph-projector/src/main.rs:285-335 | in every run with crashes and failing stores neither the offset in memory nor the saved one passes a record whose id is not recorded |
| `Projector.CrashesUnnoticed` | vertical-2/crates/graph-projector/src/main.rs:258-345 | a run with crashes and failing stores in which no step leaves an effect out leaves graph and membership of one pass over the log |
| `Projector.AlwaysOnePassIff` | vertical-2/crates/graph-core/src/project.rs:23-147 | in every run with crashes and failing stores: whenever the loop stands between two records, graph and membership are those of one uninterrupted pass over the records settled so far, exactly when no step of the run left something out (a projection interrupted with something still to change, or a failed membership write of an event that would have changed something) |
| `Projector.LossesAreExact` | vertical-2/crates/graph-core/src/project.rs:23-147 | with losses the result is the same pass with just the lost effects left out: the whole effect, all but the membership part, or all but the graph part |
| `Projector.TwoAttemptsSuffice` | vertical-2/crates/graph-projector/src/main.rs:322-333 | unless recording fails, the second attempt of a session passes the record |
| `Projector.CrashAfterMarkLosesEffect` | vertical-2/crates/graph-core/src/project.rs:24-28 | a crash right after recording an id loses its effect for good, so the result is right exactly if there was none |
| `Projector.SwallowedFailureLosesMembership` | vertical-2/crates/graph-core/src/project.rs:138-146 | a membership write that fails for an event is lost although nothing is interrupted and the offset is saved; the result is right exactly if there was nothing to write |
| `Bus.TopicState.Publish` | vertical-1/crates/telemetry-core/src/bus.rs:172-190 | appends with the next number and drops the oldest: the log holds exactly the last messages, contiguously numbered |
| `Bus.TopicState.Subscribe` | vertical-1/crates/telemetry-core/src/bus.rs:192-210 | all subscriptions of a group share one cursor, other groups keep theirs |
| `Bus.TopicState.Lag` | vertical-1/crates/telemetry-core/src/bus.rs:212-221 | numbers published minus the group's cursor |
| `Bus.BusSubscription.NextFromLog` | vertical-1/crates/telemetry-core/src/bus.rs:49-62 | delivers the first retained message behind the cursor and moves the cursor to it |
| `Bus.BusSubscription.TryRecv` | vertical-1/crates/telemetry-core/src/bus.rs:90-107 | delivers from the log only; live messages and lag notices are wake-ups |
| `Bus.BusSubscription.Recv` | vertical-1/crates/telemetry-core/src/bus.rs:65-88 | the next message of the log; with nothing new there, the next message of the live channel, if the channel holds any and something arrived since; otherwise it waits; cursor and position afterwards |
| `Bus.OnlyRedeliveriesIff` | vertical-1/crates/telemetry-core/src/bus.rs:19-88 | if no message is still to be sent live when `late` later ones are in the log, then over all such runs of a group what is handed over from the live channel was read by the group before exactly when there is no channel or its size plus 2 (late - 1) is below the size of the log |
| `Bus.UnreadCopy` | vertical-1/crates/telemetry-core/src/bus.rs:172-190 | otherwise there is such a run in which a waiting reader is handed a message nobody read |
| `Bus.DeliveredOnceIff` | vertical-1/crates/telemetry-core/src/bus.rs:65-88 | in a run whose live copies are all redeliveries, the group is given every message at most once exactly when no wait finds the log read up and an old live copy outstanding |
| `Bus.WaitDeliversTwice` | vertical-1/crates/telemetry-core/src/bus.rs:65-88 | a message read from the log is handed over a second time |
| `Bus.BusSubscription.DrainLog` | vertical-1/crates/telemetry-core/src/bus.rs:110-116 | everything retained from the cursor to the head, in order |
| `Bus.InOrder` | vertical-1/crates/telemetry-core/src/bus.rs:49-62 | one reader gets strictly increasing numbers in every run |
| `Bus.ExactlyOnceIff` | vertical-1/crates/telemetry-core/src/bus.rs:90-117 | one reader gets every message exactly once in publish order, with the lag equal to what is undelivered, exactly when it never reads more than the capacity behind |
| `BusInterleaving.CursorNeverSkips` | vertical-1/crates/telemetry-core/src/bus.rs:49-62 | in every interleaving of publishers and readers of a group each number up to the cursor was delivered, is being delivered, or was evicted |
| `BusInterleaving.DrainedMeansDelivered` | vertical-1/crates/telemetry-core/src/bus.rs:49-62 | once the readers are done, every message still in the log was delivered |
| `BusInterleaving.OnceInOrderIff` | vertical-1/crates/telemetry-core/src/bus.rs:49-62 | in every interleaving messages are delivered once and in increasing order exactly when every store finds the cursor behind the number it stores |
| `BusInterleaving.SequentialReadsDeliverOnce` | vertical-1/crates/telemetry-core/src/bus.rs:52-59 | so they are as long as no read starts inside another |
| `BusInterleaving.CursorCanGoBack` | vertical-1/crates/telemetry-core/src/bus.rs:52-59 | overlapping reads can rewind the cursor and deliver again |
| `Dedup.InMemoryDedup.Gc` | vertical-1/crates/telemetry-core/src/dedup.rs:45-61 | after collection an entry is left exactly for the claims that have not expired; no recorded claim is affected |
| `Dedup.InMemoryDedup.TryClaim` | vertical-1/crates/telemetry-core/src/dedup.rs:66-85 | grants a claim as the plain map of claim times would, whatever has been collected |
| `Dedup.InMemoryDedup.Release` | vertical-1/crates/telemetry-core/src/dedup.rs:87-90 | frees the id, leaving a stale queue record |
| `Dedup.InMemoryDedup.LenApprox` | vertical-1/crates/telemetry-core/src/dedup.rs:92-94 | never more than the claims on record |
| `Dedup.RefusedIff` | vertical-1/crates/telemetry-core/src/dedup.rs:66-90 | a claim is refused exactly when an earlier one was granted less than ttl ago and not released since |
| `Dedup.GrantsAreSpaced` | vertical-1/crates/telemetry-core/src/dedup.rs:66-90 | two granted claims of an id are ttl apart or separated by a release |
| `RateLimit.InMemoryRateLimiter.Check` | vertical-1/crates/telemetry-core/src/rate_limit.rs:49-82 | a request passes exactly when fewer than the limit passed in the window ending now; other tenants are unaffected; the error carries the retry hint |
| `RateLimit.NeverOverLimit` | vertical-1/crates/telemetry-core/src/rate_limit.rs:49-82 | over every trace at most the limit passes in every closed interval of window length |
| `RateLimit.RejectedIffFull` | vertical-1/crates/telemetry-core/src/rate_limit.rs:63-77 | a request is turned away exactly when its window already holds the limit |
| `RateLimit.HintSufficesIff` | vertical-1/crates/telemetry-core/src/rate_limit.rs:63-74 | a lone client that waits the hinted seconds gets through exactly when less than one second was missing |
| `RateLimit.RedisRateLimiter.Check` | vertical-1/crates/telemetry-core/src/rate_limit.rs:111-137 | counter per tenant and minute with expiry on the first hit |
| `RateLimit.MinuteRule` | vertical-1/crates/telemetry-core/src/rate_limit.rs:111-137 | a request passes exactly when fewer than the limit of its tenant came before it in the same minute, and the counter expires a minute after the first of them |
| `RateLimit.AtMostTwiceTheLimit` | vertical-1/crates/telemetry-core/src/rate_limit.rs:111-137 | the minute counters let at most twice the limit through in any 60 seconds |
| `RateLimit.TwiceTheLimitIsReached` | vertical-1/crates/telemetry-core/src/rate_limit.rs:111-137 | and that bound is reached within two seconds |
| `Ingest.ReleaseSafeIff` | vertical-1/crates/telemetry-core/src/pipeline.rs:227-239 | a release keeps all live claims of an id apart exactly when no other request of that id still in progress or done claimed it less than ttl ago |
| `Ingest.OneOutcomePerWindow` | vertical-1/crates/telemetry-core/src/pipeline.rs:209-240 | however ingests interleave, two that end accepted or dead-lettered for one delivery id claimed it at least ttl apart, provided no release takes the live claim of another |
| `Ingest.RobbedClaimLetsTwoThrough` | vertical-1/crates/telemetry-core/src/pipeline.rs:209-240 | every release that does take one can be followed by steps after which two requests of the id are processed less than ttl apart |
| `Ingest.LateReleaseRobs` | vertical-1/crates/telemetry-core/src/pipeline.rs:227-239 | a release after the claim has expired and been granted again is such a release |
| `Ingest.LateReleaseLetsTwoThrough` | vertical-1/crates/telemetry-core/src/pipeline.rs:227-239 | and two deliveries are then processed at once |
| `Ingest.RefusedOnlyByHolder` | vertical-1/crates/telemetry-core/src/pipeline.rs:216-224 | a duplicate is answered only because of a live claim whose request has not failed |
| `Ingest.FailureFreesTheId` | vertical-1/crates/telemetry-core/src/pipeline.rs:232-238 | after a failed call and its release the next attempt is granted |
| `Ingest.AcceptedIsDurable` | vertical-1/crates/telemetry-core/src/pipeline.rs:305-334 | accepted is answered only once the event is in the raw log, its topic and the inline store if there is one |
| `Ingest.LogsAreExact` | vertical-1/crates/telemetry-core/src/pipeline.rs:243-335 | in every run each request is in the raw, acl and topic log and in the store at most once, with the event its payload was read as; one on its way or accepted is there exactly when it has come past that publication, and in the acl log exactly when the payload revokes |
| `Ingest.RevocationsArePublished` | vertical-1/crates/telemetry-core/src/pipeline.rs:288-302 | an accepted request is in the acl log, once, exactly when its payload was read as revoking; nothing else ever gets there |
| `Ingest.PublishedAtMostOnce` | vertical-1/crates/telemetry-core/src/pipeline.rs:243-335 | no request puts its event into the raw log twice; duplicates and dead letters never get there |
| `Pipeline.IngestPipeline.Ingest` | vertical-1/crates/telemetry-core/src/pipeline.rs:165-241 | a request is answered exactly when it is no challenge, its tenant is known, it is authentic and within the limit; it then runs as the step machine; an accepted event is appended to the raw log and its topic, to the acl log if it revokes, to the store if there is one; the claim stays unless a backend failed; a rejected request changes nothing |
| `Pipeline.VerdictMeans` | vertical-1/crates/telemetry-core/src/pipeline.rs:243-335 | accepted exactly when every call that was due succeeded, dead-lettered exactly when the payload did not normalize, and otherwise failed with the error of one of the calls |
| `Pipeline.IngestPipeline.IngestClaimed` | vertical-1/crates/telemetry-core/src/pipeline.rs:209-240 | claim, process, and release when a backend failed |
| `Pipeline.IngestPipeline.ProcessClaimed` | vertical-1/crates/telemetry-core/src/pipeline.rs:243-335 | vault, normalize, revocation, raw log, topic, inline store; the first failure decides, and each log has grown by the event exactly when all calls up to its own succeeded |
| `EventStore.InMemoryEventStore.Upsert` | vertical-1/crates/telemetry-core/src/store.rs:186-231 | both indexes after a write; a stored event is always overwritten |
| `EventStore.InMemoryEventStore.LatestStateForResource` | vertical-1/crates/telemetry-core/src/store.rs:348-368 | the last of the greatest visible events by time and sequence |
| `EventStore.InMemoryEventStore.Query` | vertical-1/crates/telemetry-core/src/store.rs:251-327 | filter, sort and truncate over the visiting order of the hash map; a foreign tenant is an error |
| `EventStore.InMemoryEventStore.ExportSnapshot` | vertical-1/crates/telemetry-core/src/store.rs:90-102 | all events by id |
| `EventStore.InMemoryEventStore.ImportSnapshot` | vertical-1/crates/telemetry-core/src/store.rs:104-136 | all events written one after the other |
| `EventStore.UpsertKeepsConsistentIff` | vertical-1/crates/telemetry-core/src/store.rs:186-231 | the two indexes stay in agreement exactly when the id is new or keeps its resource |
| `EventStore.RunConsistentIff` | vertical-1/crates/telemetry-core/src/store.rs:186-231 | they agree throughout a run exactly when every id keeps its resource |
| `EventStore.KeepsRuleIff` | vertical-1/crates/telemetry-core/src/store.rs:195-204 | throughout a run the store holds the version the replacement rule would keep exactly when no arrival is one the rule would refuse |
| `EventStore.LowerVersionOverwrites` | vertical-1/crates/telemetry-core/src/store.rs:195-204 | a lower version overwrites a higher one that the rule would keep |
| `EventStore.MovedEventStillServed` | vertical-1/crates/telemetry-core/src/store.rs:208-229 | an event that moves to another resource is still served as the latest of the old one |
| `EventStore.LatestIsArgMax` | vertical-1/crates/telemetry-core/src/store.rs:348-368 | with the indexes in agreement the latest state is the stored event the caller may see with the greatest time, then the greatest sequence number |
| `EventStore.ArrivalOrderIrrelevant` | vertical-1/crates/telemetry-core/src/store.rs:186-231 | without ties it does not depend on the order or number of arrivals |
| `EventStore.RestartRebuilds` | vertical-1/crates/telemetry-core/src/store.rs:90-136 | a restart rebuilds both indexes from the events by id, in any order |
| `EventStore.RestartKeepsLatest` | vertical-1/crates/telemetry-core/src/store.rs:90-136 | so latest states survive a restart where the indexes agreed and no keys tie |
| `EventStore.QueryIsNewestSelected` | vertical-1/crates/telemetry-core/src/store.rs:251-327 | a query returns events that every given filter lets through and the caller may see, each once, newest first, all of them or exactly as many as the limit allows, and none left out is newer |
| `AclCache.InMemoryAclStore.EnsureUser` | vertical-1/crates/telemetry-core/src/acl.rs:293-318 | a new user starts without groups, a known one keeps them |
| `AclCache.InMemoryAclStore.SetUserGroups` | vertical-1/crates/telemetry-core/src/acl.rs:331-350 | new groups, next version of the tenant, one invalidation; an unknown user is an error |
| `AclCache.InMemoryAclStore.AddUserToGroup` | vertical-1/crates/telemetry-core/src/acl.rs:352-368 | the same for one more group |
| `AclCache.InMemoryAclStore.RemoveUserFromGroup` | vertical-1/crates/telemetry-core/src/acl.rs:370-386 | the same for one group less |
| `AclCache.InMemoryAclStore.ApplyRevocation` | vertical-1/crates/telemetry-core/src/acl.rs:403-417 | dispatch on the change type |
| `AclCache.Cache.GetUserGroups` | vertical-1/crates/telemetry-core/src/acl.rs:510-522 | read-through; current whenever no invalidation is unread |
| `AclCache.Cache.Listen` | vertical-1/crates/telemetry-core/src/acl.rs:498-505 | one invalidation drops one user and keeps the cache up to date |
| `AclCache.ChangeIsAnnounced` | vertical-1/crates/telemetry-core/src/acl.rs:331-386 | a finished change leaves the cache up to date or announced |
| `AclCache.CalmIff` | vertical-1/crates/telemetry-core/src/acl.rs:491-522 | a step keeps every cached value, and every value on its way into the cache, current or about to be invalidated exactly when it does not use up the last invalidation an old value depends on |
| `AclCache.CoherentRunIff` | vertical-1/crates/telemetry-core/src/acl.rs:491-522 | throughout a run every such value is current or about to be invalidated exactly when every step of the run is like that |
| `AclCache.DrainedServesCurrent` | vertical-1/crates/telemetry-core/src/acl.rs:491-522 | so a drained cache serves exactly the current groups |
| `AclCache.AtomicFillsAreCalm` | vertical-1/crates/telemetry-core/src/acl.rs:510-522 | fills that are one step, with a listener subscribed in time, are never overtaken |
| `AclCache.UncalmStepLosesInvalidation` | vertical-1/crates/telemetry-core/src/acl.rs:498-522 | any other step, a publication nobody hears or an invalidation heard during an outdated fill, leaves a value in the cache or on its way there that nothing will correct |
| `AclCache.RevokedGroupServed` | vertical-1/crates/telemetry-core/src/acl.rs:510-522 | the two-step fill of the code can serve a revoked group for good |
| `Redact.RedactSecrets` | vertical-security/src/redact.rs:7-19 | the loop over the secrets is the fold of single replacements |
| `Redact.JoinSplit` | vertical-security/src/redact.rs:14-16 | the text is its pieces joined by the secret |
| `Redact.PiecesAreClean` | vertical-security/src/redact.rs:14-16 | no piece contains the secret and every piece is a stretch of the text |
| `Redact.SafeIff` | vertical-security/src/redact.rs:7-19 | a nonempty secret is gone from every body redacted with it, whatever the other secrets are and however they overlap, exactly when, laid across the mark at any overlap, it differs from it somewhere |
| `Redact.BracketFreeSafeIff` | vertical-security/src/redact.rs:7-19 | with any one list of secrets a bracket-free one of them is gone from every redacted body exactly when it is no part of REDACTED |
| `Redact.BracketSecretSurvives` | vertical-security/src/redact.rs:7-19 | a secret with a bracket can be completed by the mark and survive, even alone in its list |
| `Redact.NoHitNoChange` | vertical-security/src/redact.rs:7-19 | a body that contains no nonempty secret comes back unchanged, whatever the secrets look like |
| `Redact.UnchangedIff` | vertical-security/src/redact.rs:7-19 | and no other body does, if every secret is bracket-free or shares nothing with the mark |
| `Redact.SecretsCanCancel` | vertical-security/src/redact.rs:7-19 | other secrets can undo each other: for every part of the mark there is a second secret with which the mark comes back as it was |
| `Bridge.GithubBridge.NoteV2Down` | scripts/github_live_bridge.py:301-311 | the wait starts at 2 seconds, grows by half and stops at 60 |
| `Bridge.GithubBridge.NoteV2Up` | scripts/github_live_bridge.py:314-324 | resets the wait and reports a recovery |
| `Bridge.GithubBridge.MarkSeen` | scripts/github_live_bridge.py:194-197 | one more id is seen |
| `Bridge.GithubBridge.Tick` | scripts/github_live_bridge.py:1118-1154 | one pass: poison skip, cap, stop and back off at the first failure or unhealthy answer |
| `Bridge.BackoffSaturates` | scripts/github_live_bridge.py:301-311 | the wait is a full minute exactly from the tenth failure on |
| `Bridge.TickMakesProgress` | scripts/github_live_bridge.py:1118-1154 | a healthy tick that fetches something unseen strictly lowers the remaining cost |
| `Bridge.TickIsFair` | scripts/github_live_bridge.py:1118-1154 | in every tick an event is left as it was, or skipped for good after MAX failures, or projected, or counted as failed because its own projection failed; a service that is down counts against none, and none is touched before everything older in the batch has been seen |
| `Bridge.EverythingIsSeen` | scripts/github_live_bridge.py:1118-1154 | n events are all seen within n times (MAX + 1) such ticks, however the projections turn out, and none fails more than MAX times |
| `Bridge.SkippedOnlyWhenPoisoned` | scripts/github_live_bridge.py:1126-1133 | an event is skipped unprojected only after exactly MAX failures |
| `Conflicts.IndexEdges` | vertical-2/crates/graph-core/src/intent.rs:754-766 | after the pass over the edges the index lists exactly the intents with an active ABOUT edge |
| `Conflicts.IndexIntents` | vertical-2/crates/graph-core/src/intent.rs:739-778 | the finished index lists, under every work item, exactly the intents about it |
| `Conflicts.OwnerCardRight` | vertical-2/crates/graph-core/src/intent.rs:781-846 | the owner cards of a work item are those of the reference definition |
| `Conflicts.MutualCards` | vertical-2/crates/graph-core/src/intent.rs:848-884 | one card at least for every pair of opposite block edges, and none without |
| `Conflicts.OpenBlockerCards` | vertical-2/crates/graph-core/src/intent.rs:886-921 | a card for every BLOCKED intent |
| `Conflicts.BlocksShipCards` | vertical-2/crates/graph-core/src/intent.rs:923-948 | a card for every active block of a work item with a SHIP claim |
| `Conflicts.FrictionCardRight` | vertical-2/crates/graph-core/src/intent.rs:985-1002 | merge friction of a work item |
| `Conflicts.StaleCardRight` | vertical-2/crates/graph-core/src/intent.rs:1004-1021 | stale review of a work item |
| `Conflicts.CiCardRight` | vertical-2/crates/graph-core/src/intent.rs:1023-1041 | a failing check matters exactly where SHIP is claimed |
| `Signals.WorkLabelsMean` | vertical-2/crates/graph-core/src/intent.rs:500-515 | the labels of work are, in lower case, the texts and names in the list `labels` and the text `label` |
| `Signals.FrictionIff` | vertical-2/crates/graph-core/src/intent.rs:553-592 | there is merge friction exactly when the provider says not mergeable or names a troubled state, or title or body use one of the phrases |
| `Signals.StaleIff` | vertical-2/crates/graph-core/src/intent.rs:595-667 | a review is stale exactly when it is not closed and is labelled stale, or is that of a pull request with a date at least a week back |
| `Signals.StaleStays` | vertical-2/crates/graph-core/src/intent.rs:595-667 | time alone never ends staleness |
| `Signals.CiIff` | vertical-2/crates/graph-core/src/intent.rs:670-716 | a check fails exactly when one of the properties providers use, or a label, says so |
| `Conflicts.KeepFirst` | vertical-2/crates/graph-core/src/intent.rs:1044-1046 | one card per id text is kept and no id text is lost |
| `Conflicts.DetectConflicts` | vertical-2/crates/graph-core/src/intent.rs:733-1053 | when no two nodes share an id every card is a conflict of the reference definition, with the right nodes, owners, types and evidence, and there is exactly one for the id text of every conflict; sorted by severity then id |
| `Conflicts.MostSevereFirst` | vertical-2/crates/graph-core/src/intent.rs:1047-1062 | high before medium before low, and by id among equals |
| `Conflicts.OnePerConflictIff` | vertical-2/crates/graph-core/src/intent.rs:1044-1046 | the cards are then one for every conflict exactly when no two conflicts of the scene have the same id text |
| `Conflicts.MutualBlocksAlike` | vertical-2/crates/graph-core/src/intent.rs:857-868 | two mutual blocks whose id texts are the same |
| `Conflicts.ClaimKindsIff` | vertical-2/crates/graph-core/src/intent.rs:781-846 | with one card per conflict, opposite claims are reported exactly where both types are claimed, competing owners exactly where several owners are and both types are not |
| `Conflicts.MutualIff` | vertical-2/crates/graph-core/src/intent.rs:848-884 | with one card per conflict, a mutual block is reported exactly when active edges block both ways |
| `ConflictListing.ListConflicts` | vertical-2/crates/graph-api/src/main.rs:574-617 | the listing answers with the first cards, by severity and without demo cards unless asked for, of exactly the conflicts of its scene, in which no two nodes share an id |
| `ConflictListing.GatherNodes` | vertical-2/crates/graph-api/src/main.rs:596-607 | the scene holds, once each, the listed intents and whatever the caller sees at the ends of the listed edges |
| `ConflictListing.ClaimsListed` | vertical-2/crates/graph-api/src/main.rs:580-612 | while no listing is cut off, a conflict of claims is found in the scene exactly when there is one in everything the caller sees |
| `ConflictListing.BlocksListed` | vertical-2/crates/graph-api/src/main.rs:580-612 | the same for blocks |
| `ConflictListing.FrictionListedIff` | vertical-2/crates/graph-api/src/main.rs:596-612 | friction of work is found exactly when there is some and the work is an intent or at an end of a live BLOCKS or ABOUT edge |
| `IntentFlow.AttachedIntentIsClaim` | vertical-2/crates/graph-core/src/intent.rs:374-463 | an intent attached by the projection is found by the detector with its owner and type |
| `IntentFlow.TwoOwnersConflict` | vertical-2/crates/graph-core/src/intent.rs:781-846 | two people with intents on one work item are a conflict |

## Left out

- Hashing: ids that the code hashes are modelled as the text that is hashed.
- Keyword classification of titles, labels and bodies, and the provider normalizers: parameters of the mapping and of the pipeline.
- Clocks: every operation takes its instants as parameters; times are integers, and dates in properties are read by a parameter.
- Confidence values, latency and metrics counters: floating point or bookkeeping without influence on the results.
- JSON numbers are integers; trimming of commit messages knows the ASCII white space only.
- GraphStore.InMemoryGraphStore.ApplyMutation: the hash maps are single maps keyed by tenant and id; the nested locks and persistence to files are not modelled, only the snapshot that is written.
- GraphStore.InMemoryGraphStore.MergeAllStates: about calls that return. The code inserts a newer state while the guard of its lookup of the same key is still alive (vertical-2/crates/graph-core/src/store.rs:279-305), which may lock up.
- ConsumeLoop.ConsumeBatch: the offset store does not fail here; failing saves, crashes and failing stores are steps of the Projector machine. Two topics consumed by two tasks on one engine are not interleaved.
- Projector.TwoAttemptsSuffice: speaks of sessions in which recording an id does not fail; a store that keeps refusing is retried forever, as in the code.
- RowOrder.RunsSeeSameEdges: of the SQL store the edge upsert, the state rule, the state query and the searches over loaded rows are modelled, not the other statements or transactions; the rows of one tenant are loaded at one moment.
- Bus.TopicState.Publish: one call at a time; the two halves of a publication are separate steps of the group machine of `Bus.OnlyRedeliveriesIff`, whose reads are one step each, and overlapping reads are the matter of BusInterleaving. The map from topic names to topics is left out, topics do not share anything; the broadcast channel is the list of what was sent and a position per receiver.
- Dedup.InMemoryDedup.TryClaim: one call at a time; two claims may in reality enter the queue slightly out of time order.
- RateLimit.RedisRateLimiter.Check: commands do not fail, and the clock is read once per request.
- Pipeline.IngestPipeline.Ingest: the realtime and the backfill topic are one log of the model, whichever the request asks for; webhook signatures and the tenant directory are answers given as parameters. A revocation is also applied to the access store, whose errors the code ignores; that store is the matter of AclCache.
- AclCache.CoherentRunIff: the channel never overflows; on an overflow error the listener of the code ends and nothing is invalidated any more. Importing access lists at start-up, which sends no invalidation, comes before the cache is used.
- Redact.UnchangedIff: lists that hold a bracketed secret sharing something with the mark; there secrets can undo each other (`Redact.SecretsCanCancel`), and only one direction is proved (`Redact.NoHitNoChange`).
- Bridge.EverythingIsSeen: speaks of healthy ticks with a cap of at least one in which the seen ids are not cleared; clearing them after a wipe of V2, the seen-ids file and the GitHub pollers are left out.
- Conflicts.DetectConflicts: owner lists are sets, the summary texts are left out, and the contents are proved when no two nodes share an id, which `ConflictListing.ListConflicts` establishes for its scene.
- ConflictListing.ListConflicts: the graph does not change between the listings and lookups of one request; the comparison with everything the caller sees is made at one instant.
- Redis, Kafka, ClickHouse, SQL and S3 clients, HTTP servers, configuration, seeds and demos, the user interface, and the twin and ledger services of V3.
