# Smegmesh: replication, route leaking and placement, proved

Smegmesh keeps the state of a WireGuard mesh in a replicated last-writer-wins map, spreads it by gossip, leaks
routes between the meshes a node belongs to, and derives each node's WireGuard configuration from what it holds.
This project models those parts and proves what they promise.

## How it is laid out

Code that changes state in place is modelled by classes with the same fields and methods. Every method is proved
equal to a function on values; the theorems are about those functions, and so about the methods.

| files | part |
|---|---|
| `NatMaps.dfy`, `Replica.dfy` | sums and maxima of maps; the replicated map as a value, one function per operation |
| `VectorClock.dfy`, `GMap.dfy`, `TwoPhaseMap.dfy` | the classes of `pkg/crdt`, proved against those functions |
| `Syncer.dfy` | the session state machine and both loops that drive it, in lock step |
| `Causality.dfy` | what one replica's clock promises about its stamps |
| `Gossip.dfy`, `Convergence.dfy` | runs of any number of replicas where rounds of sessions interleave and messages are lost, repeated or reordered; what those runs keep |
| `Sessions.dfy`, `AtomicRuns.dfy`, `Pruning.dfy` | whole sessions: the join they compute, the early exit, aborted sessions, garbage collection |
| `Spreading.dfy` | once writes stop: all replicas end the same |
| `Overlaps.dfy` | sessions that overlap, or die on one side |
| `LatePruning.dfy`, `SteadyRuns.dfy`, `SteadySessions.dfy`, `SlowSessions.dfy` | prunes between the rounds of sessions, the runs in which they do no harm, the session code as steps of those runs, and two runs in which they do harm |
| `Gravestones.dfy` | how the mark of an unreachable peer travels, and what it changes |
| `RouteTables.dfy`, `Datastore.dfy` | route tables and the mesh datastore |
| `RouteLeaking.dfy`, `RouteManager.dfy`, `Withdrawal.dfy` | the route-leaking world and its loop freedom; the update that runs in it; when an update withdraws a mesh the node has left |
| `Sorting.dfy`, `Hashing.dfy`, `Placement.dfy` | stable insertion; consistent hashing, and the placement of clients on peers |
| `Cluster.dfy`, `Infection.dfy` | the gossip cluster search, and how often a change is pushed |

## What the proofs found

- Removing another node's key can do nothing: `Remove` stamps at the greatest clock, not above it, and a tie
  keeps the entry (`Causality.RemoveForeignTies`; the exact condition is `Causality.RemoveWorksIff`).
- The early exit compares hashes that can collide, also in a run of two replicas that hold different entries
  (`AtomicRuns.CollisionReached`), so its soundness carries the hypothesis that these two clocks did not.
- The early exit needs sessions that do not overlap at a replica. If b, past PRESENT with a, runs a whole session with
  c and then finishes with a, b and c exit early from then on, and c has what b has exactly when b and c together
  already had what a had (`Overlaps.OverlapSoundIff`, `Overlaps.OverlapLoses`).
- A session that dies after PRESENT has merged clocks but not maps. The next session then exits early although the
  stores differ (`AtomicRuns.AbortLoses`). `AtomicRuns.AbortSoundIff` says exactly when that is harmless, and
  `Overlaps.OneSidedAbortSoundIff` does for a session that dies when only one end has merged.
- `Merge` does not look at `highestStale`. In a session slower than the stale time, a prune between the request and the
  merge lets a collected entry back in, and the clock then refuses to track it (the run of
  `SlowSessions.PruneInsideSession`); the exact condition is `LatePruning.SessionReinstatesIff`.
- In such a session a replica can even prune itself, and its next write is then older than what the others hold (the
  run of `SlowSessions.OwnPruneRewinds`; the exact condition is `LatePruning.WriteAfterPruneOutranksIff`).
- Where time never falls, a replica merges within its stale time of its own last tick, and an answer is merged under
  the bound it was asked under, neither happens, however the rounds interleave (`SteadyRuns.TimelyPrunesLast`).
- The comment at `pkg/crdt/two_phase_map.go:198` calls `Gravestone` local, but snapshots carry it: a replica can end
  with a peer marked that it never marked (`Gravestones.MarkTravels`). Whose mark survives is
  `Gravestones.SessionMarksIff`. The convergence theorems hold up to marks (`Convergence.Same`), and marks matter:
  equal stores have equal peers exactly when they agree on the marks of present peers (`Gravestones.SamePeersIff`),
  and where they do not they find different routes (`Gravestones.MarkHidesRoutes`).
- The infection count belongs to the node, not to the mesh. A change is pushed InfectionCount times in every schedule
  exactly when the node has no other mesh (`Infections.PromiseHoldsIff`); in a given schedule, exactly when no other
  mesh pushed (`Infections.PushedInFullIff`). Another mesh can use up the whole count after one failed round of the
  changed one, which is then never pushed (`Infections.OtherMeshUsesUpTheCount`). A change that arrives while the
  count is running is pushed only as often as the count still says (`Infections.PushedAsOftenAsDue`).
- A peer that closes its stream early counts as a success and is marked unreachable all the same, because an end of
  file reads as an unknown error. A stream closed before the first answer exchanges nothing and does just that
  (`Infections.ClosedAtOnce`); the exact condition is `Infections.MarkedBySuccessIff`.
- A peer can make the client panic by leaving its first two messages empty, unless the client's clock hash is 0, which is
  what an empty message reads as (`Syncers.ClientPanicsIff`). A client can do the same to the server with a third
  request (`Syncers.ServerPanicsIff`). The program's own ends never send such messages.
- Routes to a mesh the node has left are not withdrawn while it bridges two others: each of its tables is an offer for
  the other (`Withdrawal.OrphanStays`, reached by the run of `Withdrawal.OrphanReached`; the exact condition is
  `Withdrawal.KeptIff`).
- Nodes list their peers in map order, and a tie between peer hashes is broken by that order. Two nodes may then
  place one client differently (`Hashing.OrderIrrelevantIff`).
- A cluster search that stops on the node's own name may return a run without it (`Clusters.StopsOutside`). Every
  listed name lies in its own run exactly when the list is at most two groups long (`Clusters.OwnRunIff`).
- The runs a cluster search returns need not split the list: they can overlap without being equal
  (`Clusters.RunsOverlap`). They do split it exactly when the bisection leaves no short cell before the last
  (`Clusters.RunsPartitionIff`), which depends only on the two sizes.

## Model

| member | source | states |
|---|---|---|
| VectorClocks.VectorClock.IncrementClock | pkg/crdt/vector_clock.go:35-52 | returns the greatest clock and stores one more under the own key, in whatever order entries are visited |
| VectorClocks.VectorClock.GetHash | pkg/crdt/vector_clock.go:56-67 | the weighted sum modulo 2^64 of all entries, whatever the iteration order |
| VectorClocks.VectorClock.Merge | pkg/crdt/vector_clock.go:70-74 | the pointwise maximum of accepted entries, whatever the iteration order |
| VectorClocks.VectorClock.GetStale | pkg/crdt/vector_clock.go:77-94 | exactly the keys that some entry's update has outrun by more than the stale time; highestStale becomes the greatest of itself and their clocks, and nothing else changes |
| VectorClocks.VectorClock.Prune | pkg/crdt/vector_clock.go:106-116 | exactly the stale keys leave the clock |
| VectorClocks.VectorClock.GetClock | pkg/crdt/vector_clock.go:160-171 | every key with its clock value |
| Causality.ClockPutIff | pkg/crdt/vector_clock.go:135-157 | a value replaces an entry and its time if and only if it is above both the entry and highestStale |
| VectorClocks.VectorClock.PutHashed | pkg/crdt/vector_clock.go:135-157 | only a value above both the entry and highestStale is stored |
| GMaps.GMap.Put | pkg/crdt/g_map.go:24-35 | stamps the bucket with the clock before the tick |
| GMaps.GMap.PutBucket | pkg/crdt/g_map.go:53-61 | a bucket replaces only an older one |
| GMaps.GMap.Mark | pkg/crdt/g_map.go:83-93 | sets the gravestone of a present key and nothing else |
| GMaps.GMap.Save | pkg/crdt/g_map.go:128-138 | a copy of the whole map |
| GMaps.GMap.SaveWithKeys | pkg/crdt/g_map.go:141-151 | one bucket per key asked for, zero buckets for absent keys |
| GMaps.GMap.GetClock | pkg/crdt/g_map.go:154-164 | every key with its stamp |
| GMaps.GMap.GetHash | pkg/crdt/g_map.go:167-178 | the sum of all stamps modulo 2^64, whatever the iteration order |
| GMaps.GMap.Prune | pkg/crdt/g_map.go:181-190 | removes exactly the stale keys and records them |
| GMaps.GMap.Merge | pkg/crdt/two_phase_map.go:196-208 | one loop of the merge: every key ends with its newer bucket and the clock has seen every accepted stamp |
| TwoPhaseMaps.TwoPhaseMap.Contains | pkg/crdt/two_phase_map.go:28-42 | present when added and not removed later; a tie keeps the key |
| TwoPhaseMaps.TwoPhaseMap.Get | pkg/crdt/two_phase_map.go:45-63 | the data of a present key, else the zero value |
| TwoPhaseMaps.TwoPhaseMap.Put | pkg/crdt/two_phase_map.go:66-70 | three clock operations and one bucket write, as one change of the whole store |
| TwoPhaseMaps.TwoPhaseMap.Remove | pkg/crdt/two_phase_map.go:78-80 | a removal stamped at the greatest clock; the added entry stays |
| TwoPhaseMaps.TwoPhaseMap.AsList | pkg/crdt/two_phase_map.go:82-109 | exactly the present keys, each once, each with its data |
| TwoPhaseMaps.TwoPhaseMap.Snapshot | pkg/crdt/two_phase_map.go:113-118 | both whole maps |
| TwoPhaseMaps.TwoPhaseMap.SnapShotFromState | pkg/crdt/two_phase_map.go:122-130 | from each map the buckets of the keys asked for |
| TwoPhaseMaps.TwoPhaseMap.GetHash | pkg/crdt/two_phase_map.go:151-153 | the product of both map hashes plus one, in machine words |
| TwoPhaseMaps.TwoPhaseMap.GenerateMessage | pkg/crdt/two_phase_map.go:157-166 | the stamps of both maps and the clock |
| TwoPhaseMaps.Difference | pkg/crdt/two_phase_map.go:170-193 | exactly the keys whose remote stamp is above highestStale and newer than the local one |
| TwoPhaseMaps.TwoPhaseMap.Merge | pkg/crdt/two_phase_map.go:196-208 | both maps merged, and the clock raised by the stamps of both |
| TwoPhaseMaps.TwoPhaseMap.Prune | pkg/crdt/two_phase_map.go:211-215 | its three scans agree, so it equals one prune of the whole store |
| Causality.PutDominates | pkg/crdt/two_phase_map.go:66-70 | a write outranks every stamp and clock value the replica has seen, so the key is present with the new data |
| Causality.PutForeign | pkg/crdt/two_phase_map.go:66-70 | writing another replica's key also lifts that key's clock entry to the old greatest, if it may, and ticks the own clock twice |
| Causality.RemoveWorksIff | pkg/crdt/two_phase_map.go:78-80 | a removal takes effect if and only if some clock has passed the key's stamp |
| Causality.RemoveOwn | pkg/crdt/datastore.go:516-523 | a replica's removal of its own key always takes effect, and reading it then gives the zero value |
| Causality.RemoveForeignTies | pkg/crdt/two_phase_map.go:28-42 | after a bare Load, removing another replica's key leaves it present |
| Syncers.TwoPhaseSyncer.GenerateMessage | pkg/crdt/two_phase_map_syncer.go:157-165 | in every state that cannot panic, the message, the new state and the new store |
| Syncers.TwoPhaseSyncer.IncrementState | pkg/crdt/two_phase_map_syncer.go:153-155 | the next state, FINISHED staying FINISHED |
| Syncers.TwoPhaseSyncer.Hash | pkg/crdt/two_phase_map_syncer.go:36-52 | sends the clock hash and leaves the store alone |
| Syncers.TwoPhaseSyncer.Prepare | pkg/crdt/two_phase_map_syncer.go:54-89 | exits on equal hashes, else ticks the clock and sends the stamps it saved |
| Syncers.TwoPhaseSyncer.Present | pkg/crdt/two_phase_map_syncer.go:91-115 | asks for the difference against the saved stamps and merges the peer's clock |
| Syncers.TwoPhaseSyncer.Exchange | pkg/crdt/two_phase_map_syncer.go:117-136 | answers from the live maps |
| Syncers.TwoPhaseSyncer.Merge | pkg/crdt/two_phase_map_syncer.go:138-151 | merges the answer and ends the session |
| Syncers.LockStep | pkg/crdt/two_phase_map_syncer.go:153-165 | after n rounds both ends are in the same state and neither or both are done; no round can panic before the end, which is round 2 when hashes agree and 5 otherwise |
| Syncers.SyncMesh | pkg/sync/syncrequester.go:80-108 | both loops together terminate after 2 or 5 rounds, never panic, and leave each end the result of one session |
| Syncers.RunRound | pkg/sync/syncservice.go:41-92 | one iteration of both loops: each end answers what it received before, then the answers cross |
| Syncers.ClientSync | pkg/sync/syncrequester.go:80-108 | the client's loop against any replies and any broken stream: the state it is left in, and whether it completed, broke or panicked |
| Syncers.ServerSync | pkg/sync/syncservice.go:41-92 | the server's loop against any requests, with requests for another mesh and answers that cannot be sent |
| Syncers.ClientPanicsIff | pkg/crdt/two_phase_map_syncer.go:91-94 | the client panics if and only if its first two replies are empty and its clock hash is not 0 |
| Syncers.ServerPanicsIff | pkg/crdt/two_phase_map_syncer.go:91-94 | the server panics if and only if its first two requests are empty, a third for the same mesh arrives, and its clock hash is not 0 |
| Syncers.HonestSession | pkg/sync/syncrequester.go:80-108 | with an uninterrupted peer that loop is the session, and a stream that breaks after n replies leaves the store of round n + 1 |
| Syncers.HonestRequests | pkg/sync/syncservice.go:41-92 | with an uninterrupted client the server's loop is the session; a stream that breaks after n requests, or on which the last answer cannot be sent, leaves the store of round n |
| Syncers.ServerSessionIsSession | pkg/sync/syncservice.go:41-92 | all of a session's requests leave the server completed, with the session's result |
| Gossip.StepKeeps | pkg/crdt/two_phase_map.go:66-80 | every step keeps: all buckets stamped and seen, nobody ahead of an owner, every stored or sent bucket is what its owner wrote at that stamp |
| Convergence.RunAdvances | pkg/crdt/g_map.go:53-61 | over any run no stamp and no clock of any replica falls |
| Convergence.RoundIsSteps | pkg/crdt/two_phase_map_syncer.go:36-151 | any round of any session, in any state, is at most two steps of the gossip world |
| Convergence.InterleavedSession | pkg/crdt/two_phase_map_syncer.go:78-149 | whatever falls between the rounds of a session, the receiver ends no older than the sender was at PREPARE |
| Convergence.MergeIdempotent | pkg/crdt/two_phase_map.go:196-208 | merging what is already merged changes nothing |
| Convergence.MergeAssociative | pkg/crdt/two_phase_map.go:196-208 | merges group freely |
| Convergence.MergeCommutes | pkg/crdt/two_phase_map.go:196-208 | coherent maps merge to the same map in either order, up to Gravestone |
| Convergence.RunCoherent | pkg/crdt/two_phase_map.go:66-70 | in every run, under own-key writes, one key and stamp never carries two contents, in any store or snapshot |
| Convergence.SameSnapshotsAgree | pkg/crdt/two_phase_map.go:28-63 | replicas that merged the same snapshots, in any orders and with repetitions, agree on Contains and Get |
| Convergence.OwnerLeads | pkg/crdt/two_phase_map.go:28-63 | nobody is ahead of a key's owner, and whoever is level with it shows the owner's entry |
| Convergence.HasChangesExact | pkg/crdt/datastore.go:243-252 | the change number never falls, and while it fits a word HasChanges is true if and only if some stamp changed or appeared |
| Convergence.ChangeNumberOfTwo | pkg/crdt/two_phase_map.go:151-153 | the change number of one added and one removed entry is the product of their stamps plus one |
| Sessions.DeltaIsWhole | pkg/crdt/g_map.go:141-151 | asking for the difference and merging the answer equals merging the peer's whole map above highestStale; zero buckets are absorbed |
| Sessions.SessionMaps | pkg/crdt/two_phase_map_syncer.go:54-151 | the maps any session leaves, for any stores and any stale bounds |
| Sessions.SessionStamped | pkg/crdt/two_phase_map_syncer.go:54-151 | every session keeps every bucket stamped and seen by the clock |
| Sessions.SessionComputesJoin | pkg/crdt/two_phase_map_syncer.go:54-151 | without pruning both ends finish with the newer of every entry and equal clocks, and the next session exits early and changes nothing |
| AtomicRuns.SyncKeeps | pkg/crdt/two_phase_map_syncer.go:65-149 | a whole session keeps the order of entries by clock |
| AtomicRuns.ClockOrdersEntries | pkg/crdt/vector_clock.go:35-52 | in every run a replica whose clock at k is no greater has no newer entry at k, and equal clocks mean equal entries |
| AtomicRuns.EarlyExitSound | pkg/crdt/two_phase_map_syncer.go:65-73 | equal hashes that do not collide mean equal stores |
| AtomicRuns.HashCollides | pkg/crdt/vector_clock.go:56-67 | two different clocks that hash alike |
| AtomicRuns.CollisionReached | pkg/crdt/two_phase_map_syncer.go:65-73 | a run after which two replicas exit early although one has an entry the other lacks |
| AtomicRuns.AbortSoundIff | pkg/crdt/two_phase_map_syncer.go:91-115 | after a session dies past PRESENT the next exits early, and the stores are equal if and only if neither end had asked for anything |
| AtomicRuns.AbortLoses | pkg/crdt/two_phase_map_syncer.go:106-107 | a concrete abort after which both ends exit early and one lacks an entry |
| Pruning.PruneCoherent | pkg/crdt/two_phase_map.go:211-215 | one key set leaves both maps and the clock, nothing else changes, and a freshest clock entry survives |
| Pruning.PruneKeepsIff | pkg/crdt/vector_clock.go:83-91 | an entry of any of the three maps goes if and only if some clock entry was updated more than the stale time after its own |
| Pruning.PruneIdempotent | pkg/crdt/vector_clock.go:106-116 | a second prune changes nothing, highestStale included |
| Pruning.PruneRecords | pkg/crdt/vector_clock.go:77-94 | highestStale never falls and covers every stamp a prune removes |
| Pruning.PrunedStaysPruned | pkg/crdt/two_phase_map.go:170-193 | over any later run of writes, loads, prunes and whole sessions, no version of another replica's pruned key at or below the recorded bound comes back |
| Overlaps.OverlapSoundIff | pkg/crdt/two_phase_map_syncer.go:91-151 | after a whole session inside another, the two ends of the inner one exit early, and agree if and only if they already had all the outer peer had |
| Overlaps.OverlapLoses | pkg/sync/syncservice.go:41-92 | a concrete overlap after which one end lacks an entry and both exit early |
| Overlaps.OneSidedAbortSoundIff | pkg/crdt/two_phase_map_syncer.go:138-151 | after a session dies with one end merged the next exits early, and the stores are equal if and only if the other end had asked for nothing |
| LatePruning.SessionReinstatesIff | pkg/crdt/two_phase_map.go:170-208 | for a session whose rounds fall anywhere, in either map an entry comes back below the bound if and only if it was requested, the answer is newer than what is left, and the bound has reached the answered stamp |
| LatePruning.SteadyBoundReinstatesNothing | pkg/crdt/two_phase_map_syncer.go:106 | if the bound is the same at PRESENT and MERGE, and the peer has not fallen behind its report, nothing comes back |
| LatePruning.WriteAfterPruneOutranksIff | pkg/crdt/vector_clock.go:106-116 | a write after a prune outranks every earlier clock value if and only if an entry with the greatest clock was fresh |
| SlowSessions.PruneInsideSession | pkg/crdt/vector_clock.go:148-154 | a run of the program's steps in which a session asks for a newer entry, the old one is pruned, and the merge brings the entry back below the bound and unknown to the clock |
| SlowSessions.OwnPruneRewinds | pkg/crdt/vector_clock.go:77-94 | a run in which a replica prunes itself and then writes below its own earlier stamp |
| SteadyRuns.StepKeeps | pkg/crdt/two_phase_map_syncer.go:78-149 | every steady step keeps: whoever reported a stamp still has it or newer, or has pruned it; every answer is above the bound it was asked under |
| SteadyRuns.SteadyPrunesLast | pkg/crdt/two_phase_map.go:170-215 | in every run of freely interleaved rounds, writes, loads and prunes that merges under the bound it asked under, what a replica prunes never comes back there below the recorded bound |
| SteadyRuns.TimelyIsSteady | pkg/crdt/vector_clock.go:77-94 | a replica that merges within its stale time of its own last tick, in time that never falls, is never stale to itself, so it never prunes itself |
| SteadyRuns.TimelyPrunesLast | pkg/crdt/two_phase_map.go:170-215 | so in every such run what a replica prunes stays away |
| SlowSessions.TimelyPrune | pkg/crdt/vector_clock.go:106-116 | a timely run in which a replica prunes another |
| SteadySessions.RoundIsSteps | pkg/crdt/two_phase_map_syncer.go:36-151 | any round of a session is at most two steps of that world, and its message is one the world knows |
| Spreading.QuietMeshAgrees | pkg/crdt/two_phase_map_syncer.go:54-151 | in every run, if from some moment on there are only whole sessions without collisions, and they carry each replica's news to every other, all replicas end with the entries their owners had |
| Gravestones.MergeMarksIff | pkg/crdt/two_phase_map.go:196-208 | after any merge a key is marked if and only if the newer bucket is, the live one on a tie |
| Gravestones.SessionMarksIff | pkg/crdt/two_phase_map_syncer.go:54-151 | the same for a whole session, with its bound and its early exit |
| Gravestones.MarkTravels | pkg/crdt/g_map.go:128-151 | a run in which a replica that marks nothing ends with a peer marked |
| Gravestones.SamePeersIff | pkg/crdt/datastore.go:438-458 | stores equal up to marks have the same contactable peers if and only if they agree on the marks of present peers |
| Gravestones.MarkHidesRoutes | pkg/crdt/datastore.go:472-513 | two stores equal up to one mark that find different routes |
| RouteTables.AddAllLeast | pkg/crdt/datastore.go:293-326 | adding routes keeps old entries or replaces them by strictly shorter added ones, and covers every added destination with least hops |
| RouteTables.WithdrawThenAdd | pkg/mesh/route.go:97-120 | withdrawing what was not computed and adding what was leaves exactly the computed destinations with least-hop members; where that already holds both parts are idle |
| RouteTables.HopsUnique | pkg/crdt/datastore.go:472-513 | destinations and hop counts do not depend on the order peers and routes are visited in |
| Datastores.Datastore.AddNode | pkg/crdt/datastore.go:170-182 | a node enters with no routes |
| Datastores.Datastore.RemoveNode | pkg/crdt/datastore.go:516-523 | fails exactly on an absent node, and then changes nothing |
| Datastores.Datastore.GetNode | pkg/crdt/datastore.go:361-368 | a node if and only if it is present |
| Datastores.Datastore.HasChanges | pkg/crdt/datastore.go:243-246 | true if and only if the change number differs from the saved one |
| Datastores.Datastore.SaveChanges | pkg/crdt/datastore.go:249-252 | saves the change number and leaves the store alone |
| Datastores.Datastore.AddRoutes | pkg/crdt/datastore.go:293-326 | fails exactly on an absent node, and writes only when some route changes the table |
| Datastores.AdvertiseWritesIff | pkg/crdt/datastore.go:305-323 | adding routes stamps the entry anew if and only if one is for a new destination or shorter |
| Datastores.Datastore.RemoveRoutes | pkg/crdt/datastore.go:329-353 | the table loses exactly the given destinations |
| Datastores.WithdrawWritesIff | pkg/crdt/datastore.go:338-350 | removing routes stamps the entry anew whenever any are given, even if the table has none of them |
| Datastores.Datastore.GetPeers | pkg/crdt/datastore.go:438-458 | exactly the present, unmarked peers, each once |
| Datastores.Datastore.GetRoutes | pkg/crdt/datastore.go:472-513 | exactly the destinations of the target and all contactable peers, each at the least of its own hops and one more than another peer's |
| RouteManagers.AddDefault | pkg/mesh/route.go:44-53 | the mesh's default route is in the own table, at no more than one hop, before routes are read |
| RouteManagers.FilterLoops | pkg/mesh/route.go:82-90 | keeps exactly the routes that are not the mesh itself and do not cross it past their first hop |
| RouteManagers.LeakFrom | pkg/mesh/route.go:62-93 | every other mesh gains exactly the candidates of this mesh, filtered |
| RouteManagers.Install | pkg/mesh/route.go:97-120 | the own table holds exactly the computed destinations with least-hop members, nothing else changes, and installing the same set again writes nothing |
| RouteManagers.RouteManager.UpdateRoutes | pkg/mesh/route.go:20-123 | fails if and only if some mesh lacks this node; on success every own table is the one computed from the least offers of exactly the contactable peers of every advertising mesh, with every other advertising mesh and any default route of the node's meshes at one hop and never the mesh itself; always a step the route-leaking world allows |
| RouteLeaking.OffersSimple | pkg/crdt/datastore.go:494-509 | appending the mesh a route was found in never repeats a mesh past the first hop |
| RouteLeaking.StepKeeps | pkg/mesh/route.go:73-92 | every join, synchronisation and update keeps all advertised routes loop free |
| RouteLeaking.LoopFreedom | pkg/mesh/route.go:73-92 | in every reachable state every route in mesh m has a path, which past its first hop has no repeats and avoids m, so hops are bounded by the number of meshes |
| Withdrawal.NeighbourAdvertised | pkg/mesh/route.go:73-78 | after a successful update every advertising mesh is at one hop in the node's tables for all its others |
| Withdrawal.OrphanStays | pkg/mesh/route.go:80-93 | a mesh the node has left stays at one hop in two tables it bridges, through every successful update |
| Withdrawal.Found | pkg/crdt/datastore.go:472-513 | a destination is found in a mesh if and only if the own table or another contactable peer has it |
| Withdrawal.InstalledIff | pkg/mesh/route.go:73-93 | the destinations installed for m: its default route if it advertises one, every other advertising mesh, what is found in one and leads around m, and nothing else |
| Withdrawal.KeptIff | pkg/mesh/route.go:97-120 | a mesh the node has left or does not advertise stays in m if and only if the routes found in another advertising mesh lead to it around m |
| Withdrawal.WithdrawnIff | pkg/mesh/route.go:97-120 | where no other peer offers it, that is if and only if another of the node's own tables does |
| Withdrawal.OrphanReached | pkg/mesh/route.go:80-93 | a run of one node that joins three meshes, installs its routes and leaves one, which it goes on advertising |
| Hashing.ConsistentHash | pkg/lib/hashing.go:21-48 | the result's bucket is the least at or above the key if there is any, else the least of all |
| Hashing.ChosenNearest | pkg/lib/hashing.go:31-47 | the chosen element has that bucket and is the first with it |
| Hashing.ChosenUnique | pkg/lib/hashing.go:21-48 | that description names one element |
| Hashing.UnchosenIrrelevant | pkg/lib/hashing.go:21-48 | dropping unchosen values and reordering keep the choice |
| Hashing.OrderIrrelevant | pkg/lib/hashing.go:21-48 | with distinct buckets the choice does not depend on input order |
| Hashing.OrderIrrelevantIff | pkg/lib/hashing.go:21-48 | without assuming distinct buckets, all permutations of the list choose alike if and only if no other value shares the chosen one's bucket |
| Hashing.AddedOnlyTakesOver | pkg/lib/hashing.go:21-48 | adding a value keeps the choice or moves it to that value |
| Placement.GetCorrespondingPeer | pkg/mesh/config.go:196-199 | a peer whose hash is the least at or above the client's if there is any, else the least of all |
| Placement.ConvertMeshNode | pkg/mesh/config.go:52-59 | a node's own host first, then the hosts of its clients |
| Placement.GetPeerConfig | pkg/mesh/config.go:325-395 | every other peer has exactly one entry, listing its host and then the hosts of exactly the clients that select it, each once; a client has exactly one entry, listing its host, if it selects this peer, and else none |
| Placement.GetClientPeer | pkg/mesh/config.go:253-257 | a client has a peer if and only if there is one, and its hash is the least at or above the client's, else the least of all |
| Placement.PlacementAgrees | pkg/mesh/config.go:335-387 | a peer configures a client directly if and only if the client, seeing the peers in any order, selects that peer |
| Placement.AllCarried | pkg/mesh/config.go:335-346 | the clients of all peers together are all clients, each once |
| Placement.HostsPartition | pkg/mesh/config.go:325-395 | a peer's AllowedIPs together are a permutation of the other peers' hosts and all clients' hosts |
| Clusters.BisectBrackets | pkg/conn/cluster.go:31-41 | names left of the bounds are below the id and names right of them above it; the search ends within a group or on the id |
| Clusters.RunHolds | pkg/conn/cluster.go:43 | the run is in bounds, not empty and at most a group long, and holds a sought name unless the search stopped on it |
| Clusters.OwnRunIff | pkg/conn/cluster.go:25-44 | every listed name lies in its own run if and only if the list is at most two groups long |
| Clusters.OwnRunOrHit | pkg/conn/cluster.go:34-43 | which single names do: those not stopped on, or stopped on within a group of the left bound |
| Clusters.StopsOutside | pkg/conn/cluster.go:38-43 | a concrete name outside its own run |
| Clusters.CellsPartition | pkg/conn/cluster.go:31-41 | searches that leave a common name between their bounds ended with the same bounds |
| Clusters.RunsPartitionIff | pkg/conn/cluster.go:43 | the runs returned for all ids are pairwise equal or disjoint if and only if bisecting that many names leaves no short cell before the last |
| Clusters.RunsOverlap | pkg/conn/cluster.go:43 | a list and two ids whose returned runs overlap without being equal |
| Clusters.BinarySearch | pkg/conn/cluster.go:25-44 | sorts in place, terminates for every positive group size, and returns the bounds of that run |
| Clusters.GetNeighbours | pkg/conn/cluster.go:49-55 | a sorted run, not empty for a non-empty list, holding a listed id the search did not stop on |
| Infections.RoundTakes | pkg/sync/syncer.go:123-127 | a successful round takes one from what is due, a failed one nothing, and the count stays within its limit |
| Infections.ClientLoopKeyed | pkg/sync/syncrequester.go:80-108 | any session with a peer that sends well-keyed nodes leaves a well-keyed store |
| Infections.SyncerImpl.VisitOne | pkg/sync/syncrequester.go:38-69 | the store after one session with one peer, whatever it replies and however its stream breaks, whether the peer is marked, and whether the visit counts |
| Infections.VisitIsSession | pkg/sync/syncer.go:100-117 | a visit to a peer that does not interrupt is exactly one whole session |
| Infections.SyncerImpl.Pull | pkg/sync/syncer.go:139-171 | an idle node's one visit, and when it counts as a pull |
| Infections.SyncerImpl.Sync | pkg/sync/syncer.go:38-135 | pushes if and only if the node is no present peer of the mesh, or something is unsaved, or the count is not 0, and else pulls if and only if a pull is due and there is a neighbour; the store after all visits; the count, the saved change number and the time of the last sync |
| Infections.MarkedByVisitIff | pkg/sync/syncererror.go:22-58 | after any visit that got through, successful or not, the peer is marked if and only if the session left it marked, or the loop did not complete, the stream was closed or broke in a way that counts, and the peer still has an entry |
| Infections.VisitLeaves | pkg/sync/syncrequester.go:38-69 | but for that mark a visit that got through leaves what its session left, and any other leaves everything |
| Infections.SucceedsIff | pkg/sync/syncer.go:108-112 | a visit succeeds if and only if the peer is there and reached and the session completes or is closed |
| Infections.AnySucceedsIff | pkg/sync/syncer.go:98-117 | a round succeeds if and only if some visit does on what the visits before it have left |
| Infections.AfterVisitsSnoc | pkg/sync/syncer.go:100-117 | the chosen peers are all visited, in order |
| Infections.ClosedAtOnce | pkg/sync/syncer.go:108-112 | a stream closed before the first answer is a success that exchanges nothing and marks the peer |
| Infections.MarkedBySuccessIff | pkg/sync/syncererror.go:22-58 | after a success the peer is marked if and only if the session left it marked, or the loop did not complete and the peer still has an entry |
| Infections.TurnIsRound | pkg/sync/syncer.go:38-135 | one turn is one round of the run, and succeeds if and only if the mesh was not silent and some visit succeeded |
| Infections.TurnsAreRun | pkg/sync/syncer.go:174-212 | any number of turns is a run |
| Infections.SyncMeshes | pkg/sync/syncer.go:174-212 | any number of turns of any meshes, one after another: the whole node they leave, whose count and unsaved meshes are those of the run, and exactly the run's pushes |
| Infections.CountStaysBounded | pkg/sync/syncer.go:123-127 | over every run the count stays within InfectionCount |
| Infections.PushedAsOftenAsDue | pkg/sync/syncer.go:54-63 | one mesh is pushed in exactly as many successful rounds as were due, however many fail between, and falls silent exactly then |
| Infections.OthersAlwaysPush | pkg/sync/syncer.go:54 | a client, or a node no longer in the mesh, pushes in every successful round |
| Infections.SharedAmongMeshes | pkg/sync/syncer.go:98-129 | over all meshes one change at count 0 causes exactly InfectionCount pushes before all are silent |
| Infections.PushesAddUp | pkg/sync/syncer.go:98-129 | the pushes of one mesh and of the others are all pushes |
| Infections.PushedInFullIff | pkg/sync/syncer.go:54-63 | in a schedule that ends in silence the changed mesh is pushed InfectionCount times if and only if no other mesh pushed |
| Infections.PromiseHoldsIff | pkg/sync/syncer.go:24-36 | it is in every such schedule if and only if the node has no other mesh |
| Infections.OtherMeshUsesUpTheCount | pkg/sync/syncer.go:123-127 | a schedule in which a second mesh uses up the count and the change is never pushed |

## Left out

What the model takes for granted:

- Stamps and clock values are natural numbers; wrap-around of a 64-bit clock is not modelled. Hashes are computed modulo 2^64 as the program does.
- Keys are hashed keys: the key hash is taken to be injective. A mesh's address prefix is taken to be an injective function of the mesh id.
- `time.Now()` is a parameter, one value per method call and one per side of a session.
- Methods are atomic. Locking is not modelled, nor is `getStale` writing under a read lock.
- Messages are the values they encode. Decoding a message of the wrong type leaves the zero value.
- Slices and maps are values: two paths sharing storage after `append`, and nodes sharing one `Routes` map, are not modelled.
- Node names in the cluster search are integers ordered as the names are, and library sorts are modelled by what they leave.

Where a statement covers less than all of the program's runs:

- Convergence.SameSnapshotsAgree: keys other than the two replicas' own; each replica's own entries are covered by `Convergence.OwnerLeads`.
- Gossip.StepKeeps: every replica writes only its own key and joins once, as the program's callers do; a node that discards its store and joins again under the same key is not modelled, and no replica prunes.
- AtomicRuns.EarlyExitSound: assumes the two clock hashes did not collide, that no replica prunes or loads, and that sessions are atomic: complete, and with nothing else happening at either end meanwhile. The server does run sessions concurrently; lemmas show that collisions, cut sessions and overlapping sessions each break it.
- AtomicRuns.ClockOrdersEntries: runs of atomic sessions without prunes and loads; overlapping sessions break it too.
- AtomicRuns.AbortSoundIff: neither end has merged its maps; `Overlaps.OneSidedAbortSoundIff` covers the case of one end.
- Pruning.PrunedStaysPruned: keys other than the replica's own, whose clock the replica itself moves on, and atomic sessions; a prune inside a session breaks it, and `SteadyRuns.SteadyPrunesLast` covers interleaved rounds.
- SteadyRuns.SteadyPrunesLast: merges happen under the bound they were asked under, and no replica prunes itself, since an owner that does may write older stamps than it reported; `SteadyRuns.TimelyPrunesLast` derives the latter from sessions shorter than the stale time.
- Spreading.QuietMeshAgrees: atomic sessions without collisions, as for the early exit.
- Withdrawal.WithdrawnIff: no other peer offers the left mesh; `Withdrawal.KeptIff` needs no such condition.
- Infections.SyncerImpl.VisitOne: the error handler reads the address of a node it no longer finds, and panics, when the session that just failed has removed the peer; the model returns normally. Peers do not open with two empty messages.
- Infections.SyncerImpl.Pull: the neighbour asked is a parameter.
- Convergence.HasChangesExact: prune-free runs, and exactness only while the change number is below 2^64.
- RouteManagers.RouteManager.UpdateRoutes: assumes the node's datastores are separate objects and that stored paths are not empty, which loop freedom gives in every reachable state.
- Infections.SyncerImpl.Sync: the peers chosen, what they reply and how their streams break are parameters, nothing else touches the store during a round, and rounds of several meshes do not overlap. The early return of a client without neighbours is left out, because a non-empty list always has some.
- Placement.PlacementAgrees: the hashes of the peers are distinct; `Hashing.OrderIrrelevantIff` says exactly when a tie matters.
- Placement.GetPeerConfig: hosts and clients only; endpoints, keep-alive, installed routes and exit points of routes are not modelled.

What the program does that is not here:

- Leader fail-over in `UpdateTimeStamp`, whose `GetTimestamp` reads the local process whatever node is asked about.
- The connection cache, including the connections dropped after an error.
- The services, alias and description setters, and node fields other than key, type and routes.
- Lists of equally short routes and exit-point selection in `pkg/mesh/config.go`, configuration merging, and removal of old WireGuard peers.
- The random choice of a node outside the cluster, and random subsets of neighbours.
- Address generation and duplicate address detection in `pkg/ip` and `pkg/mesh/manager.go`.
- Transport, encoding, IPC, the command line, the HTTP API, DNS, DOT output, logging and netlink.
- `pkg/automerge`, `pkg/rpc` and `pkg/grpc`.
