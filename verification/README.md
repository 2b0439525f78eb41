# erez, modelled and proved in Dafny

erez is a latency-aware routing daemon. It learns routes over BGP, measures the round trips of TCP
connections in the kernel, and steers traffic between nexthops by writing weighted entries into an
eBPF forwarding table. This project models the path from a BGP message to a forwarded packet, and
back from a measured round trip to the weights, and proves what the parts promise each other.
`dafny verify dfyconfig.toml` checks all of it.

| files | what they model |
|---|---|
| `BgpConnection`, `ConnectionInvariants`, `ConnectionLives` | one BGP connection: event source, state machine, timers (section 8 of RFC 4271), and the ledger of its messages |
| `BgpPeer`, `PeerRuns`, `PeerEffects` | the peer around a main and a tracked connection, collisions (section 6.8 of RFC 4271), and all its runs |
| `Updates`, `Rib`, `Controller`, `SteeringRuns`, `SteeringTicks` | UPDATE messages, the routing table, the controller, and all histories of updates and ticks |
| `Simplex`, `Apportionment`, `Descent`, `Regret` | projection onto the simplex with a floor, largest-remainder rounding, projected online gradient descent |
| `Rtt` | the sliding window of round-trip samples |
| `Addresses`, `Fib` | addresses and trie keys, longest-prefix matching, FIB entries and the draw from them |
| `Packets`, `Headers`, `Checksum`, `DataPlane`, `DataPlaneRuns`, `DataPlaneAccounts` | the tunnel on byte strings and on header records, the Internet checksum, the kernel programs, their counters and all their runs |
| `SteeringLoop` | the whole loop: from announced paths to drawn nexthops, RTT events and windows |
| `Vectors`, `Sorting` | sums, distances, sorting, enumerations of maps |

Where the source changes state in place (tables, weight maps, packet buffers, connections, peers,
counters) the model is a class whose methods are proved equal to a function or relation on values;
the theorems are about that function or relation, over every run. What such a function computes is also
pinned down from outside: by header records, by shifts instead of bits, by effects instead of states, by
causes instead of counters, or by what it means on every tick.

## How the model reads the source

- `f64` and `f32` are `real`; rounding is not modelled. The conversion of a scaled weight to `u16` truncates and saturates.
- A hash map hands out its keys in an order nobody chooses: `Enumerations.Enumerate` promises only that each key comes once.
- Kernel helpers, sends, clocks, random numbers and jitter are inputs that may be anything the helper can answer. Writes to kernel maps succeed.
- `select!` is a free choice among the enabled steps; a step is not interrupted. A run of a peer ends at its first error.
- Prefixes may have host bits set. The kernel's trie looks only at the bits of a key up to its prefix length, so a node of the FIB is that string of bits (`Node`); the key an entry carries keeps its host bits.
- Packets and callbacks are processed one at a time.

## What turned out differently from what one might expect

- A repeated nexthop defeats the comparison by length in `reconcile`: a withdrawn nexthop can keep its weight and its slot (`ReconcileIsExact` gives the exact condition, `TickIsExact` and `RunsAreExact` carry it to the entries, `StaleRun` is a run that ends this way).
- Prefixes that differ only in host bits share a node of the trie (`HostBitsClash`), and so do an IPv4 prefix and an IPv6 prefix inside ::ffff:0:0/96 (`KeysClash`); no others do (`SharedByFamily`). Withdrawing the last path of either deletes the entry of the other (`ClashRun`, `ClashRuns`) until the node is written again; announcing either overwrites it (`OverwriteRun`). `EntryIffPath` and `ClashedEntry` say exactly when, and whose nexthops the entry then names.
- With more than 100 nexthops the one-percent floors alone exceed 10,000, and the subtraction at erezd/src/steering.rs:335 overflows; with exactly 100 it does if one of them holds 1.01 percent or more (`OverflowsExactly`). The controller passes four at most.
- The collector cannot read an RTT event for an IPv6 prefix in the mapped range that is shorter than 96 bits, and reads the IPv4 prefix for a longer one (`EventsAreAttributed`); with host bits zero it can read every event (`EventsAreReadable`).
- A route that one UPDATE both announces and withdraws ends up withdrawn (`UpdateMeans`); section 4.3 of RFC 4271 recommends the opposite.
- A start event honoured above a held connection lets the retry timer take that connection away: the peer can end in OpenSent without any (`OpenSentWithoutConnection`). A retry past the OPEN is exactly what breaks the tie between the peer's state and its connection (`RunsTiedExactly`), and without such a start there is none (`StartsDecide`).
- A tracked connection that fails is kept, although the comment at netgauze/bgp-speaker/src/peer.rs:1347-1349 says it is dropped; promoting it ends the run (`InvalidExactly`, `InvalidRun`). If only its KEEPALIVE was lost, a later OPEN with hold time zero leaves the old keepalive timer running (`StaleKeepaliveRun`), and nothing else makes a running one unfit (`KeepaliveFitsExactly`).
- The message that brings a collision to light is not handled, and every other message of the main connection is (`HandledExactly`, `CollisionLosesOpen`); creation times are never set, so they never break a tie.
- A negotiated hold time of zero leaves the large hold timer of OpenSent running (`HoldTimerAfterOpen`).
- After a failed attempt to connect, no timer and no permission to try again are left (`FailedConnectStrands`).

## Model

| member | source | states |
|---|---|---|
| Vectors.ObtuseQuadrilateral | erezd/src/steering.rs:289-319 | the geometric inequality behind non-expansiveness: two obtuse angles make the far side of a quadrilateral the longer one |
| Simplex.FindThreshold | erezd/src/steering.rs:304-313 | the threshold loop ends with a threshold above which exactly a prefix of the sorted values lies, their excess summing to r; with r not positive it ends with zero |
| Simplex.CandidateBound | erezd/src/steering.rs:307-313 | a value survives its candidate exactly as long as every larger one did |
| Simplex.VariationalInequality | erezd/src/steering.rs:289-319 | at its projection a point sees every feasible point under an obtuse angle |
| Simplex.ProjectionIsNearest | erezd/src/steering.rs:289-319 | the projection is the Euclidean-nearest feasible point, no other is as near, and it is no further from any feasible point than the original |
| Simplex.ProjectionIsNonExpansive | erezd/src/steering.rs:289-319 | projecting never moves two points further apart |
| Simplex.ProjectionIsUnique | erezd/src/steering.rs:289-319 | there is only one projection |
| Simplex.FeasibleIsFixed | erezd/src/steering.rs:289-319 | feasible weights are left alone |
| Simplex.ProjectionKeepsOrder | erezd/src/steering.rs:315-318 | pairwise order is kept, and differences between survivors are |
| Apportionment.WithinOneUnit | erezd/src/steering.rs:321-349 | every integer weight is strictly within one unit of its exact share |
| Apportionment.TruncatesExactly | erezd/src/steering.rs:327-330 | the conversion to `u16` rounds down inside its range and saturates outside |
| Apportionment.KeepsFloor | erezd/src/steering.rs:321-349 | a floor on the weights is a floor on the integer weights |
| Apportionment.Monotone | erezd/src/steering.rs:339-343 | a larger weight never gets a smaller share |
| Apportionment.LargestRemainderIsOptimal | erezd/src/steering.rs:321-349 | no other integer split of 10,000 has a smaller squared error against the exact shares |
| Descent.Reconcile | erezd/src/steering.rs:273-287 | the loop leaves the old weights, or a uniform weight on every nexthop when the sizes differ or a nexthop is new |
| Descent.ReconcileIsExact | erezd/src/steering.rs:273-287 | the weights cover exactly the nexthops if and only if the comparison fires or the nexthops are pairwise distinct |
| Descent.ReconcileKeepsStale | erezd/src/steering.rs:274-275 | with one nexthop announced twice in place of two, the departed one stays |
| Descent.Move | erezd/src/steering.rs:237-255 | the gradient loop, nexthop by nexthop, unmeasured ones going to the floor |
| Descent.MovedEach | erezd/src/steering.rs:243-255 | with distinct nexthops each weight moves exactly once, a measured one by 0.00000005 for each microsecond of its cost, an unmeasured one to one percent |
| Descent.CostOfWindow | erezd/src/steering.rs:266-271 | up to the best round trip a nexthop costs its average, beyond it two for every microsecond |
| Descent.FreshStart | erezd/src/steering.rs:273-287 | changed nexthops start with equal weights that sum to one |
| Descent.Project | erezd/src/steering.rs:289-319 | below 100 nexthops the result is the projection of the weight map, whatever order the map was listed in; from 100 on every weight is clamped at the floor |
| Descent.LeftoverBound | erezd/src/steering.rs:334-337 | the leftover is the sum of the remainders: not negative and less than the number of nexthops |
| Descent.Quantise | erezd/src/steering.rs:321-349 | the outputs are a largest-remainder apportionment of the weights, one per nexthop, summing to 10,000, or the floors alone exceed 10,000 |
| Descent.OverflowsExactly | erezd/src/steering.rs:321-336 | projected weights never overflow with fewer than 100 nexthops, always do with more than 100, and with exactly 100 do when some weight reaches 0.0101 |
| Descent.OnlineDescent.Step | erezd/src/steering.rs:211-263 | for any number of nexthops one step reconciles, moves, projects and quantises the weights of one prefix and leaves all others alone, failing exactly when the floors overflow, which they do not below 100 nexthops |
| Regret.StepAsVectors | erezd/src/steering.rs:211-263 | on distinct measured nexthops a step is a gradient step followed by a Euclidean projection |
| Regret.StepLowersCost | erezd/src/steering.rs:227-259 | a step from feasible weights never raises the weighted cost, and lowers it at least by the squared distance moved over the step size |
| Regret.CheapestNeverLoses | erezd/src/steering.rs:243-259 | the cheapest nexthop never loses weight |
| Regret.DearestNeverGains | erezd/src/steering.rs:243-259 | the dearest nexthop never gains weight |
| Regret.EqualCostsChangeNothing | erezd/src/steering.rs:243-259 | with equal costs a step changes nothing |
| Regret.RegretTelescopes | erezd/src/steering.rs:211-263 | the regret of a run is paid for by the distance to the fixed choice and the gradients' norms |
| Regret.RegretBound | erezd/src/steering.rs:187-263 | over every run of steps and against every fixed feasible choice u, the regret is at most the squared distance of the start from u over twice the step size plus half the step size times the gradients' squared norms |
| RttWindows.FromSamples | erezd/src/rtt_aggregation.rs:198-222 | the summary has the count, integer average, maximum and minimum of the samples, and zeros for none |
| RttWindows.AverageInRange | erezd/src/rtt_aggregation.rs:204-218 | the average lies between the least and the greatest sample |
| RttWindows.AverageExactly | erezd/src/rtt_aggregation.rs:204-218 | the average times the count is the sum of the round trips, less than one count short |
| RttWindows.ExtremesExactly | erezd/src/rtt_aggregation.rs:204-218 | the maximum and the minimum bound the samples, and nothing tighter does |
| RttWindows.SumOfParts | erezd/src/rtt_aggregation.rs:204-218 | every sample adds its own round trip to the sum, wherever it stands |
| RttWindows.FreshExactly | erezd/src/rtt_aggregation.rs:73-80 | a sample counts until ten seconds after its time stamp, and in the future |
| RttWindows.Aggregator.Prune | erezd/src/rtt_aggregation.rs:171-180 | pruning keeps exactly the samples in the window and drops empty sequences and prefixes |
| RttWindows.Aggregator.Observe | erezd/src/rtt_aggregation.rs:73-101 | stale events change nothing; others prune and then append, or fail on an unreadable prefix |
| RttWindows.Aggregator.Snapshot | erezd/src/rtt_aggregation.rs:51-71 | a snapshot summarises exactly the samples left after pruning |
| RttWindows.PruningLosesNothing | erezd/src/rtt_aggregation.rs:73-101 | over every history with a clock that does not run back, incremental pruning differs from the full history only in samples that are too old |
| RttWindows.SnapshotIsExact | erezd/src/rtt_aggregation.rs:51-101 | every snapshot is the summary of the full history of readable events filtered to the last ten seconds, and has no empty windows |
| RttWindows.BackwardClock | erezd/src/rtt_aggregation.rs:171-180 | a reading before the last pruning sees the right window if and only if no sample went out of date in between |
| Addresses.AddressRoundTrip | erezd/src/bpf_abi.rs:26-53 | addresses survive the trip through 16 octets exactly when they are not IPv6 addresses in the mapped range |
| Addresses.KeyRoundTrip | erezd/src/bpf_abi.rs:63-101 | a prefix reads back from its key exactly when it is not an IPv6 prefix in the mapped range |
| Addresses.KeyReadable | erezd/src/bpf_abi.rs:79-101 | the key of a prefix can be read exactly unless the prefix is an IPv6 one in the mapped range shorter than 96 bits |
| Addresses.KeyReadsBack | erezd/src/bpf_abi.rs:79-101 | a key that can be read is the key of what it reads as |
| Addresses.KeyInjective | erezd/src/bpf_abi.rs:63-77 | different prefixes outside the mapped range have different keys |
| Addresses.KeysClash | erezd/src/bpf_abi.rs:63-77 | every IPv4 prefix shares its key with an IPv6 prefix |
| LongestPrefix.SharedByFamily | erezd/src/bpf/erez.bpf.c:4-12 | outside the mapped range two prefixes share a node of the trie exactly when they have one family and length and agree up to it |
| LongestPrefix.NodeInjective | erezd/src/bpf/erez.bpf.c:4-12 | with host bits zero, keys that share a node are equal, and so are prefixes outside the mapped range |
| LongestPrefix.HostBitsClash | erezd/src/bpf/erez.bpf.c:4-12 | 10.1.32.0/20 and 10.1.47.0/20 share a node |
| LongestPrefix.AgreeAsNumbers | erezd/src/bpf/erez.bpf.c:4-12 | agreeing up to a length is having equal whole octets and an equal next octet once its other bits are shifted out |
| LongestPrefix.CoversAsNumbers | erezd/src/bpf/erez.bpf.c:4-12 | covering an address, by octets and shifts, family by family |
| LongestPrefix.CanonicalAsNumbers | erezd/src/bpf_abi.rs:55-77 | host bits being zero, by octets and shifts |
| LongestPrefix.NodeMatchesByFamily | erezd/src/bpf_abi.rs:63-77 | matching nodes is matching prefixes within a family; across families only IPv6 prefixes shorter than 96 bits match an IPv4 destination |
| LongestPrefix.LookupV4 | erezd/src/bpf/erez.bpf.h:266-276 | an IPv4 destination gets its longest IPv4 prefix exactly when some IPv4 prefix covers it |
| LongestPrefix.LookupV6 | erezd/src/bpf/erez.bpf.h:277-280 | an IPv6 destination outside the mapped range gets its longest IPv6 prefix |
| LongestPrefix.LookupUnique | erezd/src/bpf/erez.bpf.c:4-12 | a lookup has one possible answer, host bits or not |
| LongestPrefix.CanonicalIsReadable | erezd/src/bpf_abi.rs:79-101 | every key with its host bits zero can be read, in the mapped range too |
| Fib.NewFibEntry | erezd/src/bpf.rs:295-329 | an entry is refused exactly for the first defect of the list, and otherwise holds the same weighted nexthops sorted by octets, padded with zeros |
| Fib.DefectExactly | erezd/src/bpf.rs:295-312 | a list makes an entry exactly when it has one to four nexthops with positive weights summing to 10,000; which check fails otherwise |
| Fib.OctetsLeExactly | erezd/src/bpf.rs:313-314 | the order of an entry is dictionary order of octets: a proper prefix or the first difference decides |
| Fib.EntryIsDeterministic | erezd/src/bpf.rs:313-314 | the same weighted nexthops in any order give the same entry, as long as they differ as octets |
| Fib.Pack | erezd/src/bpf_abi.rs:119-138 | the array-filling loop converts every slot |
| Fib.SelectNexthop | erezd/src/bpf/erez.bpf.h:161-207 | a ticket selects the nexthop of the slot it falls into exactly when the entry passes every check, and otherwise the first failing check is reported |
| Fib.TicketsPerSlot | erezd/src/bpf/erez.bpf.h:172-194 | exactly weights[k] of the 10,000 tickets fall into slot k, and slots share none |
| Fib.PackedIsDrawable | erezd/src/bpf.rs:295-329 | an entry user space builds passes every check of the kernel |
| Fib.PaddingIsZero | erezd/src/bpf.rs:316-328 | slots behind the last nexthop hold sixteen zeros and no tickets |
| Rib.RoutingTable.Insert | erezd/src/steering.rs:132-136 | a path replaces the one with its identifier and goes last |
| Rib.RoutingTable.Remove | erezd/src/steering.rs:138-146 | the path with the identifier goes, and the prefix with its last path |
| Rib.RibRefinesMap | erezd/src/steering.rs:127-158 | over every sequence of operations the table holds exactly the entries of a map from prefix and identifier to nexthop, no prefix without paths and no identifier twice |
| Rib.OldestFirst | erezd/src/steering.rs:127-158 | over every sequence of operations the paths of a prefix stand in the order of their last announcements, oldest first |
| Updates.FromMessage | erezd/src/bgp.rs:201-295 | a message is refused exactly when it has plain routes and no nexthop; otherwise exactly the routes of the plain field and of the first multiprotocol attributes are announced and withdrawn, with their own nexthops, in an order that lets the multiprotocol nexthop prevail |
| Updates.FirstReachOffers | erezd/src/bgp.rs:213-244 | the first attribute of reachable routes offers its routes its nexthop, whatever else the message says |
| Updates.PlainOffers | erezd/src/bgp.rs:201-212 | without one the routes of the plain field get the first plain nexthop |
| Updates.OtherFamilyOffers | erezd/src/bgp.rs:213-244 | and so they do if the first such attribute is for another address family |
| Updates.FirstUnreachRetracts | erezd/src/bgp.rs:246-290 | the routes withdrawn are those of the plain field and of the first attribute of unreachable routes |
| Updates.OtherFamilyRetracts | erezd/src/bgp.rs:246-290 | only those of the plain field if that attribute is for another address family |
| Updates.UpdateMeans | erezd/src/steering.rs:60-70 | after one update a route is known exactly when the update does not withdraw it and announces it or it was known; its nexthop is the last announced |
| Updates.MessageMeans | erezd/src/bgp.rs:213-244 | from message to table: a route not withdrawn gets the nexthop of the first multiprotocol attribute if that names it, else the plain one if the plain field does, else keeps its own |
| Controller.BalancedIsSound | erezd/src/steering.rs:160-185 | equal weights of one to four nexthops sum to 10,000 and none is below 2,500 |
| Controller.BalancedIsEven | erezd/src/steering.rs:168-182 | equal weights differ by one ticket at most, the earlier nexthop getting more |
| Controller.FirstFourAreFirst | erezd/src/steering.rs:160-166 | of more than four nexthops the first four count |
| Controller.SteeringController.UpdateFib | erezd/src/steering.rs:79-89 | the entry of a prefix is rewritten from its first four nexthops, or deleted, and no other entry changes |
| Controller.SteeringController.HandleUpdate | erezd/src/steering.rs:54-71 | one update is all its announcements and then all its withdrawals, each followed by its rewrite |
| Controller.SteeringController.SteerFib | erezd/src/steering.rs:91-123 | a tick steers every prefix once, in some order, and a failed snapshot changes nothing |
| Controller.SteppedIsSound | erezd/src/steering.rs:112-118 | whatever a step hands out for up to four nexthops passes every check of an entry, with at least 100 tickets each |
| SteeringRuns.RunsAreSound | erezd/src/steering.rs:79-123 | after every history, repeated nexthops included, every entry carries a key that belongs on its node and passes every check of the kernel |
| SteeringRuns.EndToEnd | erezd/src/bpf/erez.bpf.h:161-207 | after every history the kernel draws a nexthop for every ticket; exactly weights[k] of the tickets, at least one percent, are those of slot k, each draws the nexthop of slot k, and no other does unless two slots hold the same nexthop |
| SteeringRuns.RoutedKeepsDomain | erezd/src/steering.rs:79-89 | an update keeps the nodes with an entry those of the table exactly unless it takes the last path of a prefix whose node another prefix still has |
| SteeringRuns.CanonicalNeverClashes | erezd/src/steering.rs:79-89 | among prefixes with host bits zero and none in the mapped range no update does |
| SteeringRuns.TickRestoresDomain | erezd/src/steering.rs:91-123 | a successful tick rewrites every entry a clash has taken |
| SteeringRuns.NodesAfter | erezd/src/steering.rs:54-123 | after every history a node has an entry exactly when some prefix in the table has the node and no clash has deleted it since it was last written |
| SteeringRuns.EntryIffPath | erezd/src/steering.rs:54-123 | after every history a prefix with a path has an entry exactly when no clash has taken it, and one without a path has none exactly unless another prefix with a path lends it its own |
| SteeringRuns.NeverLost | erezd/src/steering.rs:79-89 | a history never loses an entry on its way exactly when none of its updates clashes |
| SteeringRuns.TickIsExact | erezd/src/steering.rs:91-123 | a tick makes the entry of a prefix with a node of its own exact, whatever it was before, exactly when the comparison by length does not miss a departed nexthop |
| SteeringRuns.EntriesFollow | erezd/src/steering.rs:54-123 | after every history every entry carries the key of one of the prefixes that may have written its node last, and names what an update balanced or a tick weighed for it |
| SteeringRuns.RunsAreExact | erezd/src/steering.rs:54-123 | after every history the entry of a prefix that alone wrote its node last carries its key, and names exactly its first four nexthops if and only if no clash took it and its last write was not a tick that missed a departed nexthop |
| SteeringRuns.ClashedEntry | erezd/src/steering.rs:79-89 | where prefixes share a node, one owns the entry, and the entry is exact for those due the same nexthops and for no others |
| SteeringRuns.LookupFollows | erezd/src/bpf/erez.bpf.c:4-12 | unless a clash has taken an entry that matches, a lookup in the FIB finds what a lookup among the prefixes with a path would |
| SteeringRuns.LookupIsLongest | erezd/src/bpf/erez.bpf.h:266-280 | after every history with no mapped IPv6 prefix left and no matching entry taken, a lookup finds the entry of the longest prefix of the destination's family with a path that covers it, naming what was last written for that prefix |
| SteeringRuns.CoveredIsFound | erezd/src/bpf/erez.bpf.h:266-280 | and it finds an entry whenever some prefix with a path covers the destination |
| SteeringRuns.ClashLosesEntry | erezd/src/steering.rs:67-70 | withdrawing the last path of a prefix deletes the entry of another with the same node |
| SteeringRuns.StaleNexthopIsNamed | erezd/src/steering.rs:273-287 | with a repeated nexthop a tick writes an entry naming a nexthop that is gone |
| SteeringRuns.StaleRun | erezd/src/steering.rs:54-123 | a whole run of the controller, three announcements and two ticks, that ends with such an entry |
| SteeringRuns.ClashRun | erezd/src/steering.rs:54-89 | for any two prefixes with one node, a whole run that ends with a path and no entry |
| SteeringRuns.ClashRuns | erezd/src/steering.rs:54-89 | two such runs: with 10.1.32.0/20 and 10.1.47.0/20, and with 10.0.0.0/8 and ::ffff:10.0.0.0/104 |
| SteeringRuns.OverwriteRun | erezd/src/steering.rs:54-89 | for any two prefixes with one node, a whole run that ends with the entry of the first naming the nexthop of the second |
| SteeringTicks.UpdatedEntryIsEven | erezd/src/steering.rs:79-89 | after every update of a prefix that keeps a path any two weights of its entry differ by one ticket at most |
| SteeringTicks.TickSteps | erezd/src/steering.rs:91-123 | a tick moves the weights of every prefix with a path by one step on exactly what the snapshot holds for it, and apportions the tickets of its entry by them |
| SteeringTicks.SlotHasSource | erezd/src/bpf.rs:295-329 | every slot of an entry holds a nexthop it was built from, as octets, with its own weight |
| SteeringTicks.SourceHasSlot | erezd/src/bpf.rs:295-329 | and every nexthop it was built from has such a slot |
| SteeringTicks.TickTickets | erezd/src/steering.rs:91-123 | after a tick every nexthop has a slot of the entry with as many tickets as its new weight is worth, give or take less than one |
| SteeringTicks.SlotsFollowWeights | erezd/src/steering.rs:321-349 | and every slot belongs to such a nexthop |
| SteeringTicks.TickLowersCost | erezd/src/steering.rs:91-123 | a tick never raises the average cost of a settled prefix by the costs its snapshot measured |
| SteeringTicks.TickKeepsCheapest | erezd/src/steering.rs:91-123 | it takes no weight from the nexthop its snapshot has as cheapest |
| SteeringTicks.TickKeepsDearest | erezd/src/steering.rs:91-123 | it gives none to the one its snapshot has as dearest |
| SteeringTicks.UnmeasuredTick | erezd/src/steering.rs:226-255 | a prefix the snapshot does not know ends with equal weights |
| SteeringTicks.TickRegret | erezd/src/steering.rs:91-123 | over every trace of updates and ticks that leaves the paths of a prefix alone its ticks keep the regret bound, on the costs their snapshots measured |
| SteeringTicks.StepExample | erezd/src/steering.rs:211-263 | from equal weights 20 against 220 milliseconds lead to 5,050 and 4,950 tickets |
| Checksum.FoldIsModular | erezd/src/bpf/erez.bpf.h:435-438 | folding keeps the sum modulo 0xffff and only zero folds to zero |
| Checksum.ByteOrderIndependent | erezd/src/bpf/erez.bpf.h:435-438 | a header is valid in one byte order exactly when it is in the other (section 2 of RFC 1071) |
| Checksum.DecrementedSum | erezd/src/bpf/erez.bpf.h:436-438 | the update of TTL and check leaves the sum of the words alone, up to one end-around carry |
| Checksum.DecrementKeepsValidity | erezd/src/bpf/erez.bpf.h:427-440 | with a TTL above one, valid headers stay valid and corrupt ones corrupt, for any header length, host order and reading order (RFC 1141) |
| Packets.Encapsulate | erezd/src/bpf/erez.bpf.h:328-369 | the stores in program order add up to the tunnel frame, field by field, for any bytes left in the new room; it fails exactly when a helper does |
| Packets.Decapsulate | erezd/src/bpf/erez.bpf.h:408-420 | moving the Ethernet header over the outer headers leaves the inner packet behind it |
| Packets.TunnelParses | erezd/src/bpf/erez.bpf.h:371-406 | the far end reads the protocol and nexthop the near end wrote |
| Packets.DecapUndoesEncap | erezd/src/bpf/erez.bpf.h:328-420 | decapsulation returns the original bytes exactly when the frame's Ethernet type is the protocol the kernel reported |
| Packets.PayloadLength | erezd/src/bpf/erez.bpf.h:356-362 | the payload length is the inner length plus 4 exactly when that fits 16 bits, and the version is 6 (section 3 of RFC 8200, section 2 of RFC 2784) |
| Packets.LowerTtl | erezd/src/bpf/erez.bpf.h:422-455 | the TTL or hop limit goes down by one in place, or nothing changes when the packet is short or about to expire |
| Packets.LowerTtlKeepsHeader | erezd/src/bpf/erez.bpf.h:427-440 | forwarding keeps the validity of the inner IPv4 header, options included |
| Headers.Reads4 | erezd/src/bpf/erez.bpf.h:249-326 | an IPv4 packet laid out field by field is looked up by its destination, and tunnelled from its source, both mapped |
| Headers.Reads6 | erezd/src/bpf/erez.bpf.h:249-326 | and an IPv6 packet by its own |
| Headers.SkipsExactly | erezd/src/bpf/erez.bpf.h:229-307 | which packets are skipped, and why, by type, length and protocol |
| Headers.OuterHeaders | erezd/src/bpf/erez.bpf.h:328-369 | what goes out is an IPv6 header with next header 47 and hop limit 255 from source to nexthop, a bare GRE header and the packet (RFC 8200, RFC 2784) |
| Headers.OuterIsAddressed | erezd/src/bpf/erez.bpf.h:328-369 | the outer header reads back as sent from the source to the nexthop |
| Headers.ReadsTunnel | erezd/src/bpf/erez.bpf.h:371-420 | what the far end takes for a tunnel, and the frame it makes of it |
| Headers.NoTunnelExactly | erezd/src/bpf/erez.bpf.h:371-406 | which frames are too short, or not IPv6 |
| Headers.Lowers4 | erezd/src/bpf/erez.bpf.h:422-440 | forwarding an IPv4 packet changes its TTL, by one, and its check field, and refuses it at one |
| Headers.Lowers6 | erezd/src/bpf/erez.bpf.h:441-455 | forwarding an IPv6 packet changes its hop limit, by one, and refuses it at one |
| Headers.Delivers4 | erezd/src/bpf/erez.bpf.h:328-514 | end to end on records: an IPv4 packet leaves the far end with new Ethernet addresses, TTL and check field and is otherwise as it was |
| Headers.Delivers6 | erezd/src/bpf/erez.bpf.h:328-514 | and an IPv6 packet with new Ethernet addresses and hop limit |
| DataPlane.Programs.Lookup | erezd/src/bpf/erez.bpf.c:4-12 | the lookup returns a longest matching key, or none when none matches |
| DataPlane.Programs.Choose | erezd/src/bpf/erez.bpf.c:146-162 | a stored nexthop goes first; otherwise one is drawn from the longest match and stored with its prefix |
| DataPlane.Programs.Encap | erezd/src/bpf/erez.bpf.c:134-175 | the whole encapsulation step: counters, sticky storage, verdict and frame |
| DataPlane.Programs.Forward | erezd/src/bpf/erez.bpf.h:457-514 | lookup, TTL, Ethernet addresses, ingress check and redirect in this order, each exit with its counter |
| DataPlane.Programs.Decap | erezd/src/bpf/erez.bpf.c:177-201 | the whole decapsulation step |
| DataPlane.Programs.SockOps | erezd/src/bpf/erez.bpf.c:76-132 | the RTT callback emits an event from the socket's stored nexthop, or counts why not |
| DataPlaneRuns.CountersAreConserved | erezd/src/bpf/erez.bpf.c:76-201 | over every run the encapsulation, decapsulation, sticky, FIB and RTT counters add up, and the events counted are the events emitted |
| DataPlaneAccounts.EncapAccounts | erezd/src/bpf/erez.bpf.c:134-175 | every counter of the encapsulation goes up by one exactly for its cause: why a packet is skipped, where its nexthop comes from, what is wrong with the entry, what becomes of it |
| DataPlaneAccounts.RoomExactly | erezd/src/bpf/erez.bpf.h:328-345 | a packet with a nexthop is sent exactly when there is room for the outer headers and 58 bytes are accessible |
| DataPlaneAccounts.DecapAccounts | erezd/src/bpf/erez.bpf.c:177-201 | and so does every counter of the decapsulation |
| DataPlaneAccounts.VerdictsExactly | erezd/src/bpf/erez.bpf.c:177-201 | which frames are redirected, aborted and dropped, and where to |
| DataPlaneAccounts.SockOpAccounts | erezd/src/bpf/erez.bpf.c:76-132 | and every counter of the socket program; an event is emitted exactly for an IPv4 or IPv6 socket with a stored nexthop when the ring buffer has room |
| DataPlaneRuns.LoweredIsLong | erezd/src/bpf/erez.bpf.h:489-494 | the uncounted exit for short frames is never taken |
| DataPlaneRuns.StickyPersists | erezd/src/bpf/erez.bpf.c:43-74 | over every run a socket keeps its stored nexthop until it closes, whatever happens to the FIB |
| DataPlaneRuns.StickyPackets | erezd/src/bpf/erez.bpf.c:146-164 | every later packet of the socket that is sent parses, at the far end, as a tunnel to that nexthop |
| DataPlaneRuns.StickyEvents | erezd/src/bpf/erez.bpf.c:84-108 | every RTT event of the socket names that nexthop and the prefix stored with it |
| DataPlaneRuns.StickyIsAttributed | erezd/src/bpf/erez.bpf.c:150-162 | what a socket has stored was drawn by an earlier packet of its own from the entry of its longest matching prefix |
| DataPlaneRuns.SoundTablesDraw | erezd/src/bpf/erez.bpf.h:161-207 | with sound tables no draw is ever refused |
| DataPlaneRuns.AttributionIsExact | erezd/src/bpf/erez.bpf.c:152-161 | with such tables the stored prefix is the longest match of the packet that stored it, and its entry named the nexthop |
| DataPlaneRuns.TunnelIsTransparent | erezd/src/bpf/erez.bpf.h:328-514 | a packet sent to a nexthop leaves the far end, on the interface that end has for the nexthop, as it was except for TTL and Ethernet addresses |
| SteeringLoop.ControllerTablesAreSound | erezd/src/steering.rs:79-123 | tables from any history of the controller are sound |
| SteeringLoop.EventsAreAttributed | erezd/src/bpf/erez.bpf.c:76-162 | with tables from the controller every RTT event carries the key of the longest match of an earlier packet, a prefix that then had a path, and a nexthop its entry then named; the collector reads it as that prefix exactly when the prefix is not in the mapped range, and not at all exactly when it is there and shorter than 96 bits |
| SteeringLoop.SentToLongest | erezd/src/bpf/erez.bpf.c:146-162 | a packet sent afresh goes to a nexthop a table of the controller names for a prefix with a path, which without clashes is the longest of the destination's family that covers it |
| SteeringLoop.Sent4ToLongest | erezd/src/bpf/erez.bpf.c:146-162 | on records: an IPv4 packet goes where the longest IPv4 prefix with a path that covers its destination field sends it |
| SteeringLoop.Sent6ToLongest | erezd/src/bpf/erez.bpf.c:146-162 | and an IPv6 packet, to the longest IPv6 prefix |
| SteeringLoop.WindowsAreVouched | erezd/src/rtt_aggregation.rs:51-101 | every sample summarised by any window of a snapshot of a run's events comes from a packet that matched the window's prefix, which then had a path, and drew the window's nexthop, which its entry then named |
| SteeringLoop.EventsAreReadable | erezd/src/rtt_aggregation.rs:73-101 | with prefixes whose host bits are zero the collector can read every event the kernel emits |
| BgpConnection.Connection.constructor | netgauze/bgp-speaker/src/connection.rs:338-376 | a new connection expects the configured AS, or any |
| BgpConnection.Connection.Poll | netgauze/bgp-speaker/src/connection.rs:1356-1443 | the event for each timer, decoding error and message, and what polling itself changes |
| BgpConnection.Connection.SetNegotiatedTimers | netgauze/bgp-speaker/src/connection.rs:437-456 | the hold time is the smaller of the two, the keepalive time a third of it, or both zero |
| BgpConnection.Connection.HandleConnected | netgauze/bgp-speaker/src/connection.rs:513-623 | the Connected state's handler, failed sends included |
| BgpConnection.Connection.HandleOpenSent | netgauze/bgp-speaker/src/connection.rs:625-723 | the OpenSent state's handler, failed sends included |
| BgpConnection.Connection.HandleOpenConfirm | netgauze/bgp-speaker/src/connection.rs:725-826 | the OpenConfirm state's handler, failed sends included |
| BgpConnection.Connection.HandleEstablished | netgauze/bgp-speaker/src/connection.rs:828-887 | the Established state's handler, failed sends included |
| BgpConnection.Connection.HandleEvent | netgauze/bgp-speaker/src/connection.rs:474-511 | dispatch by state; a terminated connection ignores events |
| ConnectionInvariants.PollIsSound | netgauze/bgp-speaker/src/connection.rs:1239-1268 | an OPEN event comes only from the expected AS, and every event carries what its handler relies on |
| ConnectionInvariants.HandleIsSound | netgauze/bgp-speaker/src/connection.rs:513-887 | handling keeps the exchange invariant: at most one OPEN sent, exactly one from OpenSent on, the peer's OPEN accepted and answered from OpenConfirm on, a KEEPALIVE received in Established |
| ConnectionInvariants.AcceptTimes | netgauze/bgp-speaker/src/connection.rs:641-655 | accepting an OPEN starts a keepalive timer exactly when neither hold time is zero, and three of its periods fit, for any jitter |
| ConnectionInvariants.HandleIsFitting | netgauze/bgp-speaker/src/connection.rs:513-887 | whichever sends fail, handling an event keeps a running keepalive timer fitting, exactly unless an OPEN with hold time zero reaches a connection in OpenSent whose timer already runs |
| ConnectionInvariants.HoldTimerAfterOpen | netgauze/bgp-speaker/src/connection.rs:651-655 | the hold timer has the negotiated period exactly when that is not zero; else the large one stays |
| ConnectionLives.EventsExactly | netgauze/bgp-speaker/src/connection.rs:1239-1443 | which stimulus lies behind each event |
| ConnectionLives.MessagesExactly | netgauze/bgp-speaker/src/connection.rs:1239-1268 | an OPEN is passed on exactly when it is not from another AS, by whether the delay timer runs |
| ConnectionLives.PollChanges | netgauze/bgp-speaker/src/connection.rs:1356-1443 | what polling itself counts and notes |
| ConnectionLives.SendsExactly | netgauze/bgp-speaker/src/connection.rs:513-887 | across all states, which events send an OPEN and which a KEEPALIVE |
| ConnectionLives.BeatChangesNothingElse | netgauze/bgp-speaker/src/connection.rs:725-887 | an expiry of the keepalive timer in OpenConfirm or Established sends one KEEPALIVE and changes nothing else |
| ConnectionLives.TerminatesExactly | netgauze/bgp-speaker/src/connection.rs:513-887 | which events end a live connection |
| ConnectionLives.AdvancesExactly | netgauze/bgp-speaker/src/connection.rs:513-887 | a connection moves on with an OPEN sent, an OPEN answered, a KEEPALIVE received, and with nothing else |
| ConnectionLives.FailsExactly | netgauze/bgp-speaker/src/connection.rs:513-887 | handling fails exactly when a message the session needs cannot be sent |
| ConnectionLives.LearnsExactly | netgauze/bgp-speaker/src/connection.rs:430-435 | AS, identifier and hold time of the peer change with an accepted OPEN only |
| ConnectionLives.TimersExactly | netgauze/bgp-speaker/src/connection.rs:437-472 | which events start which timer with which period: a third of the smaller hold time, jittered, for KEEPALIVEs |
| ConnectionLives.LedgersBalance | netgauze/bgp-speaker/src/connection.rs:474-887 | over every life of a connection each count of messages is the number of steps that send or receive one |
| ConnectionLives.RunsBalance | netgauze/bgp-speaker/src/peer.rs:1549-1641 | over every run of a peer that holds for both its connections: the KEEPALIVEs sent are the OPENs answered plus the expiries in OpenConfirm and Established, less what was lost uncounted |
| BgpPeer.PeerMachine.HandleStart | netgauze/bgp-speaker/src/peer.rs:832-848 | a start is honoured exactly in Idle, whatever connections are held |
| BgpPeer.PeerMachine.HandleStop | netgauze/bgp-speaker/src/peer.rs:804-830 | a stop drops both connections and goes to Idle |
| BgpPeer.PeerMachine.AddConnection | netgauze/bgp-speaker/src/peer.rs:649-677 | a second connection is tracked, a first one decides the state |
| BgpPeer.PeerMachine.HandleAccept | netgauze/bgp-speaker/src/peer.rs:700-742 | which incoming connections are rejected, and what an accepted one changes |
| BgpPeer.PeerMachine.HandleRetry | netgauze/bgp-speaker/src/peer.rs:1615-1630 | the retry timer reopens the way to connect and drops the main connection |
| BgpPeer.PeerMachine.DropMainConnection | netgauze/bgp-speaker/src/peer.rs:1505-1526 | the tracked connection is promoted, or the run ends when it is not open or already over |
| BgpPeer.PeerMachine.HandleConnectionEvent | netgauze/bgp-speaker/src/peer.rs:916-1315 | what the peer makes of every transition of its connection |
| BgpPeer.PeerMachine.PollMain | netgauze/bgp-speaker/src/peer.rs:1450-1472 | an event of the main connection resolves a collision or is handled |
| BgpPeer.PeerMachine.PollTracked | netgauze/bgp-speaker/src/peer.rs:1350-1383 | an event of the tracked connection stays with it, failures included, unless it brings a collision to light |
| PeerRuns.CollisionByIdentifier | netgauze/bgp-speaker/src/peer.rs:1389-1434 | once both connections know the peer's identifier, the next event of the main connection in sight leaves exactly one if the identifiers are equal and both otherwise; which one follows from the order of that identifier and our own alone, whatever the event is and whichever side opened the connections |
| PeerRuns.TrackedCollisionByIdentifier | netgauze/bgp-speaker/src/peer.rs:1350-1434 | the same for an event of the tracked connection, by what that connection knows after handling it |
| BgpPeer.PeerMachine.Step | netgauze/bgp-speaker/src/peer.rs:1549-1641 | one step of a run |
| PeerRuns.TransitionsAreTotal | netgauze/bgp-speaker/src/peer.rs:942-1314 | a live connection's transition is invalid for the peer exactly when a connection past its OPEN is told again that it is connected |
| PeerRuns.EffectFollows | netgauze/bgp-speaker/src/peer.rs:942-1314 | a transition either drops the connection, to Idle or Active, or leads to the connection's own state |
| PeerRuns.RunsAgree | netgauze/bgp-speaker/src/peer.rs:649-1641 | after every step of every run the main connection is not terminated, the tracked one not Established, and a main connection past its OPEN is in the peer's state |
| PeerRuns.StepTiedExactly | netgauze/bgp-speaker/src/peer.rs:1549-1641 | a step keeps the converse - a peer past its OPEN has a main connection in that state - exactly unless the retry timer goes off past the OPEN |
| PeerRuns.RunsTiedExactly | netgauze/bgp-speaker/src/peer.rs:649-1641 | the converse holds throughout a run if and only if the retry timer never goes off past the OPEN |
| PeerRuns.RunsBackedExactly | netgauze/bgp-speaker/src/peer.rs:649-1641 | throughout a run the converse holds and the retry timer runs only without a main connection, if and only if no start is honoured in Idle above a held connection |
| PeerRuns.StartsDecide | netgauze/bgp-speaker/src/peer.rs:1549-1630 | without such a start the retry timer never goes off past the OPEN, so the converse holds |
| PeerRuns.StartAboveConnection | netgauze/bgp-speaker/src/peer.rs:1553-1557 | a run in which a start is honoured above a live connection |
| PeerRuns.OpenSentWithoutConnection | netgauze/bgp-speaker/src/peer.rs:1623-1630 | a run of a new peer to OpenSent without any connection |
| PeerRuns.InvalidExactly | netgauze/bgp-speaker/src/peer.rs:893-914 | a step of an agreeing peer ends in an invalid transition exactly when it promotes a tracked connection that is not open or already over |
| PeerRuns.InvalidRun | netgauze/bgp-speaker/src/peer.rs:1505-1526 | a run of a new peer that ends so: a tracked OPEN from the wrong AS, then a main OPEN that makes the main connection give way |
| PeerRuns.CollisionLeavesOne | netgauze/bgp-speaker/src/peer.rs:1503-1544 | resolving a collision leaves exactly one connection |
| PeerRuns.HandledExactly | netgauze/bgp-speaker/src/peer.rs:1450-1472 | an event of the main connection is handled exactly when no collision is in sight |
| PeerRuns.CollisionLosesOpen | netgauze/bgp-speaker/src/peer.rs:1450-1457 | an input that is not: the OPEN that brings a collision to light |
| PeerRuns.FailedConnectStrands | netgauze/bgp-speaker/src/peer.rs:874-877 | after a failed attempt to connect only a stop or an incoming connection moves the peer |
| PeerRuns.RunsAreSound | netgauze/bgp-speaker/src/peer.rs:1549-1641 | over every run both connections keep the exchange invariant |
| PeerRuns.LearnedRoutesAreSafe | erezd/src/bgp.rs:311-330 | in every run an UPDATE the route filter lets through came over an Established main connection that sent exactly one OPEN, accepted the peer's OPEN from the configured AS if there is one, sent a KEEPALIVE and received one |
| PeerRuns.StepFitsExactly | netgauze/bgp-speaker/src/peer.rs:1350-1472 | a step keeps every running keepalive timer fitting exactly unless it leaves a connection in OpenSent that was handed an OPEN with hold time zero while its timer ran |
| PeerRuns.KeepaliveFitsExactly | netgauze/bgp-speaker/src/connection.rs:437-472 | throughout a run three periods of every running keepalive timer fit in the hold period, the smaller of the configured and received hold times (sections 4.2, 4.4 and 10 of RFC 4271), if and only if the run has no such step |
| PeerRuns.StaleKeepaliveRun | netgauze/bgp-speaker/src/peer.rs:1350-1383 | a run of a new peer with such a step: the KEEPALIVE of a tracked connection is lost, and its next OPEN has hold time zero |
| PeerEffects.EffectsExactly | netgauze/bgp-speaker/src/peer.rs:942-1314 | for every event of a live main connection: when the peer drops it, which state it goes to, which failures count, and when retrying stops or restarts |
| PeerEffects.HandledMeans | netgauze/bgp-speaker/src/peer.rs:916-1472 | what every handled event of the main connection makes of every field of an agreeing peer |
| PeerEffects.AdminExactly | netgauze/bgp-speaker/src/peer.rs:804-848 | a step leaves the peer up exactly if it was or a start is honoured, and it is no stop |
| PeerEffects.StartDecides | netgauze/bgp-speaker/src/peer.rs:832-848 | an honoured start leads a passive peer to listen and any other to connect |
| PeerEffects.StopUndoes | netgauze/bgp-speaker/src/peer.rs:804-830 | a stop takes a peer back to where a new one is, which does nothing until it is started |
| PeerEffects.RetriesExactly | netgauze/bgp-speaker/src/peer.rs:1615-1630 | what the retry timer changes, and when it lets the peer connect |
| PeerEffects.RejectsExactly | netgauze/bgp-speaker/src/peer.rs:700-742 | which incoming connections are turned away |
| PeerEffects.TakenExactly | netgauze/bgp-speaker/src/peer.rs:649-742 | what becomes of one that is taken |
| PeerEffects.RunsAreQuiet | netgauze/bgp-speaker/src/peer.rs:804-848 | over every run a peer that is not up is Idle, holds no connection and waits for nothing |
| PeerEffects.UpExactly | netgauze/bgp-speaker/src/peer.rs:804-848 | over every run a peer is up exactly when a start came after the last stop |

## Left out

- What a release build makes of the wrapped subtraction when the floors overflow; the model's step fails there.
- When within its period a running timer fires, and the restart of the hold timer by a received KEEPALIVE: a timer is its period here.
- Floating-point rounding, the bias of `random % 10000`, kernel map capacity and concurrent packets on one socket.
- Widths of counters and lengths: counters and sums are unbounded; only the payload length, the check field and the truncation to `u16` are given their width.
- Capabilities, notifications' contents and counts, and the OPEN message's own fields beyond AS, identifier and hold time.
- `send_bgp_message`, by which an embedding program can put messages of its own on a connection.
- The classification of malformed UPDATE attributes (`update_treatment`) and the mandatory-attribute checks: the outcome of both is an input.
- Liveness of session establishment, and agreement of two speakers on the connection that survives a collision: the code guarantees neither.
- Segmentation offload flags when room is made for the outer headers, and the forwarding table behind `bpf_fib_lookup`, which is a map from destination to interface here.
- Namespaces, configuration, HTTP metrics, per-CPU summing of counters, libbpf attachment and ring-buffer polling: plumbing that would only add easy members.
- BGP wire codecs and the IANA tables.
