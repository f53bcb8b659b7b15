# A verified model of commute

commute is a replicated key-value store in Go. It keeps counters, last-writer-wins registers and
observed-remove sets, spreads them by delta-interval gossip with acknowledgements, and finds its peers
with a SWIM membership protocol. This project models its CRDTs (`internal/crdt`), the store and its gossip
protocol (`internal/server/store.go`) and the membership, dissemination and wire format of SWIM
(`internal/swim`), and proves what they are for.

## How it is built

The gossip protocol is proved once for all three types. `Bands` holds the algebra the three merges share:
each is associative and idempotent and satisfies `x·y·x = x·y`; the register merge does not commute, so a
semilattice would be too much to ask. `Gossip` is the protocol of one type on one node, `Cluster` a
cluster of such nodes over a network that loses, duplicates and reorders packets, `Convergence` what its
exchanges achieve, `Settling` that it can always come to rest. `Counters`, `Registers`, `DvvSets` and `OrSets` are the types; `CounterRuns`,
`RegisterRuns` and `SetRuns` prove the properties of their runs, and `StoreRuns` puts the three side by side.
Sets rest on `EventLog`, the history of an element and what makes a copy of it truthful, and on `Contexts`, which
causal contexts keep copies truthful and which keep a client's remove effective. `ContextGap`, `Divergence` and
`RestartGap` show where a promise ends.

The modules ending in `Impl`, and `Replica`, `Store`, `CounterBuffer`, `EventHeap` and `EventQueue`, are the
source's mutating code: classes, loops and in-place updates, each proved against the functions above.
`CounterBuffer` keeps the sharing of Go maps between the delta buffer and what `Store.Delta` accumulates;
`SuffixJoins` says why the sharing is harmless.

`Codec` is the wire format, `Membership` and `Probing` the peer list and the probe order, `Dissemination`
the life of a membership event in the queue.

## Results

- **Acknowledgements are safe** in every run: what node i has recorded for j is a number i has reached, and j
  knows all that i knew at it (`StoreRuns.AcksAreSafe`).
- **Sending a delta is as good as sending the full state** (`Gossip.DeltaIsFullState`).
- **Agreement at rest**: when no store has anything left to send, registers and sets are equal everywhere and
  every counter holds exactly the increments and decrements accepted anywhere (`StoreRuns.StoresAgreeAtRest`).
- **Rest can always be reached**: every run, whatever was lost in it, goes on by protocol steps alone to a state in
  which no store has anything left to send and all stores agree (`StoreRuns.StoresComeToRest`).
- **A set element's state is determined by its version vector** in every store, buffer and packet, so comparing
  counters alone never skips anything new (`SetRuns.CopiesAreDeterminedByVector`,
  `SetRuns.SkipLosesNothingInRuns`).
- **Observed-remove**: an element is in a replica exactly when some add the replica knows was observed by no event
  it knows (`SetRuns.MembershipIsObservedRemove`); an add that no client asked to supersede is never hidden
  (`SetRuns.MembershipIsAskedRemove`).
- **Codec**: a message survives the wire exactly when it keeps the format's limits (`Codec.RoundTrip`).
- **Membership, probing, dissemination**: the peer-list invariant over all runs, the tight bound 2n - 1 on the
  probes between two visits of a peer, and the conservation of an event's rides.

Where a promise does not hold, the code is modelled as it is and the exact condition is proved:

- A set write may claim events its coordinator has not seen: `event` raises counters to the context. The coordinator's
  copy then stays truthful exactly when the claimed events happened and observed nothing beyond what the write
  discards (`EventLog.UpdateIsGoodIff`). For a context read from some replica at some time, and judged by what the
  coordinator can see, that is so in every history exactly when the context claims nothing about nodes the
  coordinator has entries for, or names no others (`Contexts.AcceptableIffAlwaysGood`). Otherwise agreement can be
  lost for good: `Divergence.AgreementIsLost` is a run of any three nodes, all contexts just read from a replica,
  after which two replicas with equal version vectors disagree along every further path of the protocol. Runs of
  sets take writes with any context that claims nothing new, and with any context read before that loses no id.
- A context may name ids the coordinator has no entry for; they are ignored. What a client asked to supersede then
  need not stay superseded, although its remove promises it: it does, in every history and every copy that knows the
  write, exactly when the coordinator has entries for all ids named and its own counter is not behind
  (`Contexts.RemovedIffTakenUp`, with a failing input in `ContextGap.UnknownIdIsIgnored`).
- A node that restarts empty under its old id makes the acknowledgements its peers hold false, unless they are of
  the empty store (`RestartGap`); `internal/server/convergence_test.go` calls this a known bug. Runs have no
  restarts.
- The documentation of `Message.UnmarshalBinary` promises an error for a bad packet. A target length that runs
  into the event count and checksum passes the length test, which is made against the rest of the packet with the
  checksum, and a slice is then taken out of bounds (`Codec.PanicsIff` is the exact condition).
- A counter reads right exactly when the true value fits an int64, and an increment adds its amount exactly when
  the slot does not overflow (`Counters.ReadingExact`, `Counters.IncrementLaw`).

## Model

| member | source | states |
|---|---|---|
| `Bands.MapJoinIsBand` | internal/crdt/crdt.go:362-370 | if merging two entries is associative, idempotent and left-regular, so is merging maps of entries with one-sided keys adopted |
| `Bands.MapJoinCommutative` | internal/crdt/crdt.go:65-72 | a commutative entry merge lifts to a commutative map merge |
| `Gossip.ReplayGather` | internal/server/store.go:293-308 | merging what Delta gathers from an interval of the buffer into the state before the interval gives, observably, the state after it |
| `Gossip.ReplayGrows` | internal/server/store.go:203-253 | a state that a buffer leads to still dominates whatever an earlier point of the buffer dominated |
| `Gossip.DeltaIsFullState` | internal/server/store.go:282-357 | a receiver that knows the start of an interval gets from the interval exactly what the sender's full state would give it, and then knows that full state |
| `Cluster.DeltaReachesState` | internal/server/store.go:287-308 | whichever of the three forms Delta picks, merging it at the acknowledged state reaches the sender's current state |
| `Cluster.MergeKeysMerged` | internal/server/store.go:203-253 | merging a message key by key in any order, with the skips, has the observable effect of merging all of it, and the state stays the replay of the buffer |
| `Cluster.MergeReaches` | internal/server/store.go:203-253 | a receiver of a true update ends with the merge of its state and the sender's whole state, and knows that state |
| `Cluster.WriteSafe` | internal/server/store.go:74-88 | a client write keeps every acknowledgement, recorded or in flight, and every update in flight true |
| `Cluster.SendSafe` | internal/server/store.go:282-378 | what Delta puts on the wire is true for its receiver |
| `Cluster.MergeSafe` | internal/server/store.go:203-260 | merging a packet, however late or often it arrives, keeps all acknowledgements and packets true, including the acknowledgement it sends |
| `Cluster.AckSafe` | internal/server/store.go:264-276 | recording an acknowledgement in any order and any number of times keeps everything true |
| `Cluster.GossipSafe` | internal/server/store.go:203-378 | every protocol step keeps safety, and keeps any property of values that merging keeps |
| `Cluster.GossipGrows` | internal/server/store.go:203-276 | no protocol step makes a replica forget anything or changes the set of nodes |
| `Cluster.QuiescentDominates` | internal/server/store.go:359-361 | when Delta has nothing to send between any two nodes, every replica knows what every other knows |
| `Convergence.DeltaCoversGap` | internal/server/store.go:293-307 | the interval sent carries a key exactly when the key was recorded since the acknowledgement |
| `Convergence.DeltaCarriesJoins` | internal/server/store.go:287-308 | before the first acknowledgement the whole state is sent; after it, for each key recorded since, exactly the join of the deltas recorded for it since; nothing when all is acknowledged |
| `Convergence.MergeRecordsNews` | internal/server/store.go:203-253 | in whatever order the keys of a message are visited, each key that is news is merged into the state and its delta recorded once, as it came; skipped keys, other keys and acknowledgements stay |
| `Convergence.AckCompletes` | internal/server/store.go:264-276 | acknowledging what was sent leaves nothing to send, and no acknowledgement rolls another back |
| `Convergence.RedeliveryIsNoop` | internal/server/store.go:203-253 | a message delivered twice, its keys in any two orders, changes and records nothing the second time |
| `Convergence.Exchange` | internal/server/store.go:203-378 | after i sends and j merges, j knows what both knew, only j changed, and a sender that knew more still knows all of j |
| `Convergence.SweepIn` | internal/server/store.go:203-378 | one exchange from each node to a hub, over any state, makes the hub know all of them |
| `Convergence.SweepOut` | internal/server/store.go:203-378 | one exchange from such a hub to each node makes each know what the hub knows and no more |
| `Convergence.TwoSweeps` | internal/server/store.go:203-378 | from any safe state, protocol steps through any hub make every replica know what every other knows |
| `Settling.SenderKnows` | internal/server/store.go:287-308 | whatever Delta picks to send, the sender knows all of it itself |
| `Settling.SettlePair` | internal/server/store.go:203-378 | when all know the same, a send is skipped as a whole on arrival and its acknowledgement leaves the pair with nothing to send, and nothing else changes |
| `Settling.ComesToRest` | internal/server/store.go:203-378 | from any safe state of a type whose skip test recognizes what is known, protocol steps lead to a state in which Delta has nothing to send between any two nodes |
| `Counters.IncrementLaw` | internal/crdt/crdt.go:55-72 | an increment's delta holds the node's own slot only; merging it adds the amount to that slot exactly when that does not overflow, touches no other slot and only grows the counter |
| `Counters.MergeIsBand` | internal/crdt/crdt.go:143-147 | the counter merge is associative, idempotent, left-regular and commutative |
| `Counters.CounterLaws` | internal/crdt/crdt.go:143-152 | counters satisfy everything the protocol asks of a type, up to slots holding zero |
| `Counters.LeqIsOrder` | internal/crdt/crdt.go:150-152 | IsLessOrEqual holds exactly when merging would change no slot that can be observed |
| `Counters.ReadingExact` | internal/crdt/crdt.go:125-127 | Value is the true difference exactly when that fits an int64, even where the conversions and the sums wrap |
| `CounterRuns.RunConserves` | internal/server/store.go:74-105 | at every point of every run each node's own slots are what its accepted operations add up to, and no store, buffer or packet claims more for any node |
| `CounterRuns.KnowingAllIsExact` | internal/crdt/crdt.go:109-127 | a replica that knows what all know has every key written anywhere, with exactly the grand totals of increments and of decrements |
| `CounterRuns.QuiescentValue` | internal/server/store.go:108-118 | at rest every replica has every key ever written and reads total increments minus total decrements, exactly when that fits an int64 |
| `CounterRuns.ComesToRest` | internal/server/store.go:203-378 | from every reachable state protocol steps alone lead to a state in which no counter is left to send |
| `CounterImpl.NewGCounter` | internal/crdt/crdt.go:34-39 | a new counter has its own empty map |
| `CounterImpl.GValue` | internal/crdt/crdt.go:42-48 | the loop computes the sum of all slots modulo 2^64, in whatever order the map is visited |
| `CounterImpl.GIncrement` | internal/crdt/crdt.go:56-62 | the delta lives in a new map; the counter is untouched |
| `CounterImpl.GMerge` | internal/crdt/crdt.go:65-72 | the receiver's map, or a new one if it had none, becomes the slot-wise maximum; the argument's contents stay, even where both share one map |
| `CounterImpl.GLessOrEqual` | internal/crdt/crdt.go:75-82 | the loop decides the slot-wise order, missing slots counting zero |
| `CounterImpl.PNValue` | internal/crdt/crdt.go:125-127 | the reading of the two sums in 64-bit arithmetic |
| `CounterImpl.PNIncrement` | internal/crdt/crdt.go:130-134 | an increment's delta has a new map on one side and none on the other |
| `CounterImpl.PNDecrement` | internal/crdt/crdt.go:137-141 | a decrement's delta has a new map on one side and none on the other |
| `CounterImpl.PNMerge` | internal/crdt/crdt.go:144-147 | the merge of both contents in the maps the receiver had, whatever maps the same directions share; where a map is shared across directions, the decrements see what the increments left |
| `SuffixJoins.GatherIsJoinKey` | internal/server/store.go:296-306 | what Delta gathers for a key is the join of the key's deltas in the interval |
| `SuffixJoins.AbsorbedKeepsGather` | internal/server/store.go:296-306 | if buffered deltas have absorbed later deltas of their own key, no suffix of the buffer gathers to anything else |
| `CounterBuffer.AccumulatedAbsorbs` | internal/server/store.go:296-306 | after Delta's loop, which writes through maps it shares with the buffer, each buffered delta has at most absorbed later deltas of its key |
| `CounterBuffer.Accumulate` | internal/server/store.go:296-306 | the loop keeps track of all sharing: a buffer map is shared only with the counter of its own key, and only by the key's first delta in the interval |
| `CounterBuffer.Buffer.constructor` | internal/server/store.go:60-60 | a new buffer has recorded nothing |
| `CounterBuffer.Buffer.Record` | internal/server/store.go:83-86 | recording appends a delta to what was recorded |
| `CounterBuffer.Buffer.Gathered` | internal/server/store.go:293-307 | despite the sharing, Delta returns exactly what the deltas as originally recorded gather to, now and after any number of earlier calls |
| `Registers.GreaterIsTotal` | internal/crdt/crdt.go:203-206 | of two different ids exactly one is greater |
| `Registers.GreaterIsTransitive` | internal/crdt/crdt.go:203-206 | the order of ids is transitive |
| `Registers.GreaterIsLexicographic` | internal/crdt/crdt.go:183-206 | the order of ids is decided by the first difference, a proper prefix being smaller |
| `Registers.AfterIsOrder` | internal/crdt/crdt.go:203-206 | After is a strict order, and two entries neither of which is after the other carry the same time and writer |
| `Registers.MergeIsLastWriter` | internal/crdt/crdt.go:233-237 | merging keeps one of the two entries, the later, and at equal times the one with the higher writer |
| `Registers.FirstWrite` | internal/server/store.go:123-129 | the first write to a key takes effect exactly when its time is past Go's zero time, or at it under a non-empty id (or writes nothing at all); otherwise the register reads empty |
| `Registers.RegisterLaws` | internal/crdt/crdt.go:233-242 | registers satisfy everything the protocol asks of a type, on all entries, although their merge does not commute |
| `RegisterRuns.RunKeepsInv` | internal/server/store.go:121-135 | in every run, with clocks that may stand still or go back, every entry any store ever held is initial or a value its own node adopted under that stamp |
| `RegisterRuns.StampsAreUnambiguous` | internal/crdt/crdt.go:222-237 | in every reachable state two stores with the same time and writer for a key hold the same value |
| `RegisterRuns.AgreementAtRest` | internal/server/store.go:311-333 | when nothing is left to send all register stores are equal |
| `RegisterRuns.ComesToRest` | internal/server/store.go:203-378 | from every reachable state protocol steps alone lead to a state in which no register is left to send |
| `RegisterImpl.LWWRegister.constructor` | internal/crdt/crdt.go:209-214 | a new register holds no value, no writer and Go's zero time |
| `RegisterImpl.LWWRegister.Set` | internal/crdt/crdt.go:222-230 | merged back, the delta takes effect exactly when the clock is past the time the register holds, or at it with a greater id; otherwise the write is lost and the entry stays |
| `RegisterImpl.LWWRegister.Merge` | internal/crdt/crdt.go:233-237 | afterwards the register holds one of the two entries and neither is after it |
| `RegisterImpl.LWWRegister.IsLessOrEqual` | internal/crdt/crdt.go:240-242 | true exactly when merging this register into the other would change nothing |
| `DvvSets.SyncEntryIsMax` | internal/crdt/dvvset.go:182-192 | the merged entry has the larger counter and the larger discarded prefix |
| `DvvSets.SyncIsBand` | internal/crdt/dvvset.go:169-202 | Sync is associative, idempotent and left-regular on all states, well-formed or not |
| `DvvSets.SyncRefinesDots` | internal/crdt/dvvset.go:162-202 | a dot is known after Sync if either side knew it, and survives with its value exactly if it is live on both sides or live on one and unknown to the other |
| `DvvSets.DotsDetermine` | internal/crdt/dvvset.go:8-25 | the compact representation is determined by its known dots, live dots and their values |
| `DvvSets.SyncCommutes` | internal/crdt/dvvset.go:169-202 | Sync commutes on states that agree on the value of each dot |
| `DvvSets.UpdateKeepsDots` | internal/crdt/dvvset.go:110-160 | a write takes a dot unknown before, moves no other sibling to another dot, removes exactly the siblings its context covers, and raises a counter only where no sibling is left |
| `DvvSets.UpdateHistory` | internal/crdt/dvvset.go:142-150 | a write adds its own dot and nothing else to the causal history exactly when its context exceeds no entry of another node |
| `DvvSets.UpdateIsDelta` | internal/crdt/dvvset.go:157-160 | merging the updated copy into the original, on either side, is the update itself, and the original is below it |
| `DvvSetImpl.DVVSet.constructor` | internal/crdt/dvvset.go:66-70 | a new set has no entries |
| `DvvSetImpl.DVVSet.Values` | internal/crdt/dvvset.go:73-79 | the loop returns as many values as all ids have siblings, each value as often as it occurs among them, in any order of ids |
| `DvvSetImpl.DVVSet.Join` | internal/crdt/dvvset.go:85-91 | the loop projects every entry to its counter |
| `DvvSetImpl.DVVSet.Clone` | internal/crdt/dvvset.go:97-103 | a new object with the same entries |
| `DvvSetImpl.DVVSet.Discard` | internal/crdt/dvvset.go:110-121 | the in-place loop, which rewrites the map it ranges over, computes the discard of the whole set |
| `DvvSetImpl.DVVSet.Event` | internal/crdt/dvvset.go:130-151 | the in-place loop computes the event of the whole set |
| `DvvSetImpl.DVVSet.Update` | internal/crdt/dvvset.go:157-160 | the two loops in sequence perform the update the dot lemmas speak of |
| `DvvSetImpl.DVVSet.Sync` | internal/crdt/dvvset.go:169-202 | the in-place loop computes the merge, also of a set with itself, and leaves another argument alone |
| `DvvSetImpl.DVVSet.IsLessOrEqual` | internal/crdt/dvvset.go:212-219 | the loop decides the order of the counters |
| `DvvSetImpl.MergeEntries` | internal/crdt/dvvset.go:181-193 | the two slice expressions stay in bounds on all entries and compute the merge of the entries |
| `OrSets.OrSetLaws` | internal/crdt/crdt.go:359-370 | sets satisfy everything the protocol asks of a type, on all states |
| `OrSets.WriteIsDelta` | internal/crdt/crdt.go:324-357 | the delta of an add or remove holds its element only; merging it performs the write on that element, keeps every other element and grows the set; removing an element never seen changes nothing |
| `OrSets.AddedIsContained` | internal/crdt/crdt.go:324-340 | after an add the element is in the set, whatever context the add carried |
| `OrSets.ReadThenRemoved` | internal/crdt/crdt.go:276-285 | after a remove with the context just read at the same replica the element is not in the set |
| `OrSetImpl.ORSet.constructor` | internal/crdt/crdt.go:264-269 | a new set is empty |
| `OrSetImpl.ORSet.Add` | internal/crdt/crdt.go:327-340 | the delta is made of new objects only and is the delta of the add |
| `OrSetImpl.ORSet.Remove` | internal/crdt/crdt.go:345-357 | the delta is made of new objects only; it is empty for an element never seen |
| `OrSetImpl.ORSet.Contains` | internal/crdt/crdt.go:299-311 | the loop finds out whether some sibling of the element is an add |
| `OrSetImpl.ORSet.Merge` | internal/crdt/crdt.go:362-370 | the element objects, updated in place or cloned, hold the merge of both sets, also for a set merged with itself or sharing element objects; the argument keeps its value |
| `OrSetImpl.ORSet.IsLessOrEqual` | internal/crdt/crdt.go:379-387 | the loop decides the element-wise order, an element absent from the other set deciding against |
| `EventLog.BaseIsMonotone` | internal/crdt/dvvset.go:204-219 | of two truthful copies the one with smaller counters has discarded less |
| `EventLog.SyncWithSmaller` | internal/crdt/dvvset.go:204-219 | merging a truthful copy whose counters are included changes nothing, though siblings are never compared |
| `EventLog.DeterminedByVector` | internal/crdt/dvvset.go:81-91 | two truthful copies with the same version vector are equal |
| `EventLog.SyncIsGood` | internal/crdt/dvvset.go:169-202 | merging truthful copies gives a truthful copy |
| `EventLog.UpdateIsGoodIff` | internal/crdt/dvvset.go:157-160 | a write at a node that knows its own events gives a truthful copy of the history with the write in it exactly when the events its context newly claims happened and observed nothing beyond what the write discards |
| `EventLog.LiveIffUnobserved` | internal/crdt/dvvset.go:105-121 | a sibling is live in a copy exactly when the copy knows its event and no event it knows observed it |
| `Contexts.ReadIsCovered` | internal/crdt/dvvset.go:123-150 | a context read from a replica of which the coordinator loses no id claims only events whose observations the write discards too |
| `Contexts.AcceptableIffAlwaysGood` | internal/crdt/dvvset.go:123-160 | given a coordinator's copy and a context read from some replica, the write leaves a truthful copy in every possible history exactly when the context claims nothing about nodes the coordinator has entries for, or names no others |
| `Contexts.UncoveredIsLive` | internal/crdt/crdt.go:255-256 | an add that no context of a known event asked to supersede is live |
| `Contexts.SurvivesIffLost` | internal/crdt/crdt.go:342-357 | a live add that some client asked to supersede is live exactly because a known event lost the part of its context that covers the add |
| `Contexts.DroppedIdResurfaces` | internal/crdt/dvvset.go:105-121 | whenever a context names an id the coordinator lacks, there is a history in which an add it asked to supersede is live in a copy that knows the write |
| `Contexts.RemovedIffTakenUp` | internal/crdt/crdt.go:342-357 | what a client asked to supersede stays so, in every history and every truthful copy that knows the write, exactly when the coordinator has entries for all ids named and its own counter is not behind |
| `SetRuns.RunKeepsInv` | internal/server/store.go:151-200 | in every run of reads, writes and gossip every copy of a set, in stores, buffers and packets, is truthful, acknowledgements are safe, each node knows its own events, and every context read is one of a truthful copy |
| `SetRuns.CopiesAreDeterminedByVector` | internal/crdt/dvvset.go:204-219 | in every reachable state two copies of an element with the same version vector are equal, and smaller counters mean less discarded |
| `SetRuns.SkipLosesNothingInRuns` | internal/server/store.go:239-243 | in every reachable state, merging what Store.Merge skips would not have changed the local set |
| `SetRuns.MembershipIsObservedRemove` | internal/crdt/crdt.go:255-311 | in every reachable state a replica contains an element exactly when some add it knows was observed by no event it knows |
| `SetRuns.MembershipIsAskedRemove` | internal/crdt/crdt.go:324-357 | in every reachable state an element is contained if the replica knows an add no client of a known event asked to supersede, and only then if no known event lost a part of its context |
| `SetRuns.QuiescentKnowsAll` | internal/server/store.go:335-357 | at rest every replica knows every event of every element of every set |
| `SetRuns.AgreementAtRest` | internal/server/store.go:335-357 | at rest all set stores are equal, siblings and causal contexts included |
| `SetRuns.ComesToRest` | internal/server/store.go:203-378 | from every reachable state protocol steps alone lead to a state in which no set is left to send |
| `ContextGap.ContextAheadLosesAgreement` | internal/crdt/dvvset.go:142-150 | for any three nodes, a remove with a context that is ahead of its coordinator and names a node it has no entry for ends with equal version vectors and the element in one replica but not in the other |
| `ContextGap.UnknownIdIsIgnored` | internal/crdt/dvvset.go:105-121 | a remove whose context covers an add of a node its coordinator does not know leaves the element gone, and the element is back when that add arrives |
| `Divergence.HoldersStay` | internal/server/store.go:239-247 | a replica that has all counters any value in stores, buffers and packets has keeps what it holds along every path of protocol steps |
| `Divergence.AgreementIsLost` | internal/crdt/dvvset.go:142-150 | for any three nodes there is a run, every context just read from a replica, after which two replicas have equal version vectors, one contains the element and the other does not, on every further path of protocol steps |
| `RestartGap.RestartKeepsAckIff` | internal/server/convergence_test.go:435-438 | what i recorded for j is still true after j restarts empty exactly when i had recorded nothing, or the empty store |
| `RestartGap.RestartedStaysEmpty` | internal/server/convergence_test.go:435-467 | in a cluster of two, after a node that had acknowledged everything restarts, no sequence of protocol steps gives it anything back unless an old update with keys is delivered again |
| `RestartGap.GapIsReached` | internal/server/convergence_test.go:442-451 | from every state in which one of two nodes has anything, the protocol can reach one in which the other has acknowledged all of it |
| `Replicas.Replica.constructor` | internal/server/store.go:54-71 | a new replica is the initial lane of the protocol |
| `Replicas.Replica.Record` | internal/server/store.go:121-135 | a write updates state, numbered buffer and sequence number as the protocol's write does, with one delta for every number below the current one |
| `Replicas.Replica.Merge` | internal/server/store.go:239-252 | the loop over the message's keys, in some order, is the protocol's merge, and the acknowledgement is the message's number |
| `Replicas.Replica.Ack` | internal/server/store.go:272-275 | an acknowledgement is recorded as the maximum of all received |
| `Replicas.Replica.Delta` | internal/server/store.go:335-357 | the three cases and the nested loops send the full state, the join of the missing interval, or nothing |
| `Stores.Store.constructor` | internal/server/store.go:54-71 | a new store is three initial replicas |
| `Stores.Store.ChangeCounter` | internal/server/store.go:74-105 | an increment or decrement is a recorded write of its delta to the counters and nothing else |
| `Stores.Store.SetRegister` | internal/server/store.go:121-135 | a register write is recorded, whether or not it wins, and nothing else changes; the first write to a key takes effect at every time from the zero time on |
| `Stores.Store.AddSet` | internal/server/store.go:166-180 | an add is a recorded write of its delta to the sets and nothing else |
| `Stores.Store.RemoveSet` | internal/server/store.go:184-200 | a remove is recorded unless the set or the element was never seen, in which case nothing at all changes |
| `Stores.Store.Merge` | internal/server/store.go:203-260 | each part of the message goes to its type only, and the acknowledgement carries the three numbers |
| `Stores.Store.Ack` | internal/server/store.go:264-276 | the three numbers go to their types |
| `Stores.Store.Delta` | internal/server/store.go:282-378 | the message has what each type has for the peer, and there is none exactly when no type has anything |
| `StoreRuns.RunKeepsInv` | internal/server/store.go:73-276 | the invariants of the three types hold together in every interleaving |
| `StoreRuns.AcksAreSafe` | internal/server/store.go:262-276 | in every run with loss, duplication and reordering, what a node has recorded for another, for each type, is a number it has reached, the other knows all it knew then, and all packets are true |
| `StoreRuns.StoresAgreeAtRest` | internal/server/store.go:282-378 | once no store has anything to send to any other, all have the same registers and sets, and the same counters with exactly the accepted increments and decrements |
| `StoreRuns.StoresComeToRest` | internal/server/store.go:203-378 | every run goes on, by protocol steps of the three types and without another write, to a state in which no store has anything to send and all agree |
| `StoreRuns.MergesAreRecognized` | internal/server/store.go:205-243 | for all three types the skip test recognizes what was just merged, on all values |
| `Codec.BigEndianRoundTrip` | internal/swim/message.go:84-84 | a number that fits k bytes is read back from its k bytes |
| `Codec.BigEndianAt` | internal/swim/message.go:84-84 | the byte at place i of k weighs 256^(k - 1 - i): the highest byte comes first |
| `Codec.FromBigEndianHead` | internal/swim/message.go:145-145 | the first byte read weighs most |
| `Codec.FromBigEndianRoundTrip` | internal/swim/message.go:145-145 | the bytes of a number are recovered from it |
| `Codec.DecodeEncodedEvents` | internal/swim/message.go:153-166 | the event loop reads back any list of valid events and leaves what follows |
| `Codec.DecodeSealed` | internal/swim/message.go:109-176 | a valid message is accepted whatever bytes follow its last event |
| `Codec.AcceptedShape` | internal/swim/message.go:109-176 | an accepted packet is the encoding of the message it yields plus trailing bytes, under a matching checksum |
| `Codec.AcceptedIff` | internal/swim/message.go:105-176 | a packet decodes to a message exactly when the message is valid and the packet is its sealed body, possibly with trailing bytes |
| `Codec.RoundTrip` | internal/swim/message.go:70-176 | a message decodes to itself exactly when source, target, addresses, period, kinds and event count keep the format's limits |
| `Codec.Reencode` | internal/swim/message.go:70-176 | re-encoding a decoded packet gives a packet of the same message, and the same bytes exactly when the length is the same |
| `Codec.HeadLayout` | internal/swim/message.go:77-89 | the head of every message byte by byte: version 1, source length and source, kind, period with its highest byte first, target length and target, event count, lengths modulo 256 |
| `Codec.EventAt` | internal/swim/message.go:91-96 | event i starts where the sizes before it add up to, and is its kind, the length of its address and the address |
| `Codec.SealLayout` | internal/swim/message.go:98-100 | the last four bytes are the checksum of all before them, highest byte first |
| `Codec.EarlyFaults` | internal/swim/message.go:110-127 | a packet is refused for its length, checksum, version or missing source exactly when that is the first of these faults it has |
| `Codec.LateFaults` | internal/swim/message.go:128-144 | otherwise for a source that is too long, a header cut off or an unknown kind, exactly when that is the first |
| `Codec.Limits` | internal/swim/event.go:9-22 | the longest address has the length of the longest IPv6 address with port, eight events fit, and the longest message has 503 bytes |
| `Codec.PanicsIff` | internal/swim/message.go:147-155 | decoding leaves the packet's bounds exactly on packets that pass every test up to the target and whose target length runs into the event count and checksum |
| `Codec.OverrunExists` | internal/swim/message.go:147-155 | the condition can be met under every checksum |
| `Codec.MessageFits` | internal/swim/message.go:42-49 | a valid message with at most the piggyback limit of events fits the receive buffer, which fits the UDP payload |
| `Codec.LimitIsTight` | internal/swim/event.go:13-21 | with one event more some valid message exceeds the UDP payload |
| `CodecImpl.EventBytes` | internal/swim/message.go:72-75 | the sizing loop computes the encoded length of the events |
| `CodecImpl.PutEvents` | internal/swim/message.go:88-96 | the loop writes the encoded events behind what is there, and never past the buffer |
| `CodecImpl.MarshalBinary` | internal/swim/message.go:71-103 | the buffer filled in place is the encoding |
| `CodecImpl.UnmarshalEvents` | internal/swim/message.go:155-165 | the loop decodes the events or stops at the first error |
| `CodecImpl.UnmarshalBinary` | internal/swim/message.go:109-176 | the checks in the source's order decide as the decoder function the laws speak of |
| `Membership.DeathKeepsInv` | internal/swim/swim.go:773-779 | a death keeps the peer-list invariant, unlists its address and no other, and puts a listed address among the dead and notifies it once |
| `Membership.WithoutKeepsOrder` | internal/swim/swim.go:815-821 | deleting an address keeps all other peers, in their order |
| `Membership.NewPeersAre` | internal/swim/swim.go:792-809 | a join takes over exactly the offered addresses that are not this node, not dead and not listed, each once |
| `Membership.NewPeersAreFirst` | internal/swim/swim.go:800-807 | each new peer has the port of the first offer for its address |
| `Membership.NewPeersInOrder` | internal/swim/swim.go:793-809 | new peers come in the order of their offers |
| `Membership.ProcessAliveIs` | internal/swim/swim.go:575-577 | announcing added peers notifies each exactly once, in order |
| `Membership.JoinKeepsInv` | internal/swim/swim.go:573-582 | a join keeps the invariant, revives only its sender and lists exactly the old addresses and the acceptable offered ones |
| `Membership.RunKeepsInv` | internal/swim/swim.go:757-825 | over all sequences of joins and deaths, listed addresses are distinct, not this node and not dead, Alive is recorded exactly for them, and no address is notified twice in a row of the same kind |
| `Membership.DeadStaysDead` | internal/swim/swim.go:786-790 | a dead address stays dead and unlisted through any run in which it does not join itself, whatever others offer |
| `Membership.DeathLasts` | internal/swim/swim.go:786-822 | in every run, a listed address that dies is dead and unlisted in all later states up to the next join of its own |
| `Probing.FullPass` | internal/swim/swim.go:699-708 | from a reshuffle on every peer comes up within one pass |
| `Probing.EveryPeerIsProbed` | internal/swim/swim.go:690-711 | with n peers, any 2n - 1 consecutive probes from any cursor include every peer, for all shuffles |
| `Probing.BoundIsTight` | internal/swim/swim.go:690-711 | 2n - 2 probes can miss a peer, for every n |
| `PeersImpl.Peers.constructor` | internal/swim/swim.go:671-680 | a new peer list knows nobody |
| `PeersImpl.Peers.NextProbe` | internal/swim/swim.go:692-711 | with the shuffle loop a call is a step of the probe order; without peers it returns nothing and changes nothing |
| `PeersImpl.Peers.Process` | internal/swim/swim.go:757-780 | a repeated event changes nothing; any other is recorded and notified, and a death leaves the address dead and unlisted |
| `PeersImpl.Peers.Join` | internal/swim/swim.go:782-810 | whatever the random placements, the list is the old list and the new peers, and the sender is no longer dead |
| `PeersImpl.Peers.Delete` | internal/swim/swim.go:812-825 | the address is gone from the list, whose order is kept, and is dead; the result tells whether it was listed |
| `PeersImpl.Peers.MemberJoin` | internal/swim/swim.go:573-582 | the join and the announcements together are a join step of the membership model |
| `EventHeap.RootIsLeast` | internal/swim/event.go:125-127 | the root of an ordered heap was sent least often |
| `EventHeap.Heap.Swap` | internal/swim/event.go:129-133 | the contents stay the same and every item still knows its place |
| `EventHeap.Heap.Push` | internal/swim/event.go:135-139 | pushing keeps the heap order and index fields and adds one entry to the contents |
| `EventHeap.Heap.Pop` | internal/swim/event.go:141-146 | popping keeps both and removes an entry that was sent least often |
| `EventQueue.Queue.Push` | internal/swim/event.go:81-91 | the contents grow by the items |
| `EventQueue.Queue.Pop` | internal/swim/event.go:95-110 | the result is the least-sent entries, as many as asked for or all, in order, and the rest stays |
| `EventQueue.Queue.Send` | internal/swim/swim.go:595-619 | a failed send leaves the queue as it was; a successful one counts each carried event once more and drops those that reached the limit |
| `EventQueue.Compact` | internal/swim/swim.go:608-615 | the in-place compaction keeps the items still below the limit, counted once more, in order |
| `EventQueue.KeptExactly` | internal/swim/swim.go:608-616 | what goes back after a send: each carried entry still below the limit once, counted once more, and nothing else |
| `Dissemination.StepConserves` | internal/swim/swim.go:595-619 | each step conserves the rides an event has taken plus the rides it has ahead |
| `Dissemination.RidesAreConserved` | internal/swim/swim.go:594-619 | over every run from an empty queue, rides taken plus rides ahead are the pushes times the limit (one ride where the limit is lower), for each event and for all together |
| `Dissemination.DroppedIffRidden` | internal/swim/swim.go:607-616 | an event has left the queue exactly when every push of it has had all its rides |
| `Dissemination.PushedOnce` | internal/swim/swim.go:595-619 | an event pushed once rides at most once on each message, on at most the limit of successful sends (one where the limit is lower), and has left the queue exactly when it has ridden on that many different ones |
| `Dissemination.QueueDrains` | internal/swim/swim.go:595-619 | without new events, as many successful sends as there are rides ahead empty the queue |

## Left out

- `Stores.Store.Delta`: each method of the store is one step. The source holds only a read lock while Delta merges into maps it shares with the buffer, so two concurrent calls could write the same map; such races are not modelled.
- `Stores.Store.Merge`: stores hold CRDT values here, so sharing between a merged message and the store is modelled only for the counter buffer (`CounterBuffer`).
- `CounterRuns.RunConserves`: runs take operations that do not overflow a node's 64-bit slot, as `internal/crdt/crdt.go` assumes.
- `SetRuns.RunKeepsInv`: runs exclude writes whose context claims events of a node the coordinator has an entry for and either was not read from a replica or names a node it has none for; `Contexts.AcceptableIffAlwaysGood` and `Divergence.AgreementIsLost` show why.
- `DvvSetImpl.DVVSet.Sync`: counters are unbounded; the conversion of counter differences to int assumes they are below 2^63.
- `CounterBuffer.Buffer.Record`: takes a delta whose maps are not in the buffer yet, which the deltas of writes and of decoded messages are.
- `OrSetImpl.ORSet.Merge`: sets that share one object between two different elements are excluded, since the result would depend on the order in which the map is visited; elements are cloned when adopted, so this does not arise.
- `PeersImpl.Peers.Process`: the state change, the deletion and the notification are one step, and the notification is always delivered (a cancelled context is not modelled).
- `EventQueue.Queue.Send`: the dissemination limit is an input; its computation by logarithm and ceiling in floating point is not modelled.
- `Dissemination.RidesAreConserved`: the limit is the same throughout a run, that is, the number of peers does not change.
- `Probing.EveryPeerIsProbed`: joins and deaths between the probes are not modelled.
- `Codec.RoundTrip`: the checksum is an arbitrary function of the bytes; the polynomial of CRC-32 plays no part.
- Node ids are unique and an address stands for its node; node restarts appear only in `RestartGap`.
- Timestamps are integers; monotonic clock readings and time zones are not modelled.
- JSON and HTTP encodings, the client API of `internal/server/server.go` and the command in `cmd/co`.
- The probe, ping-req and listen loops of `internal/swim/swim.go` with their timers and goroutines, the choice of random subgroups, name resolution and bootstrap.
- Garbage collection of the delta buffer, which the source does not do either.
- Getters (GetCounter, GetRegister, GetSet, CausalContexts, asJoinBody) would only add easy members.
