# Tailscale in Dafny: the DERP relay, the tailnet key authority, Taildrop and disco

This project models five parts of the Tailscale code base and proves what they promise.

* **Tailnet key authority** (`Tka*.dfy`). Authority update messages (AUMs) form a forest linked by
  parent hashes; the state of the authority is a fold over a chain of them. The model covers the
  validity rules, the fold, the two stores with their child indices, signature weight and fork
  choice, the update builder, recomputing the state at a hash, and the four marking passes of
  compaction. The main results are exactly when compaction succeeds, that it then leaves exactly the
  chains it must, as one tree under the ancestor it returns, that what was first committed lately is
  among them, that replaying any kept chain means the
  same as before, and exactly which states the program can still compute afterwards: those at head and
  at everything that descends from the end of the active stretch, but not always those at other kept
  forks.
* **DERP relay server** (`DerpTypes`, `DerpDup`, `DerpClients`, `DerpMesh`, `DerpWatch`,
  `DerpRoutes`, `DerpServer`, `DerpOldest`, `DerpFights`, `DerpElection`, `DerpRecords`, `DerpAddresses`,
  `DerpServerObject`, `DerpPackets`, `DerpQueues`, `DerpDrops`). `DerpServer` is a state machine over
  the critical sections of the server lock; `DerpServerObject` is the server as an object whose
  methods, with their loops, are proved to be its steps; `DerpPackets` adds the goroutines that read,
  route, queue and write packets, as small steps that interleave freely. The main results hold at
  every point of every run: the tables and gauges agree, under the last-writer policy the
  duplicate-connection election never leaves a key without an active connection, under the other one
  a connection is disabled exactly if its set fought since, a key that loses its active connection
  passes to the one noted last, watchers mirror the connected keys (all of
  them under the last-writer policy, under either policy those they were told of), the oldest forwarder
  of a key is used exactly as long as no index wraps around, and packets are neither lost, made up, nor
  sent to the wrong key, leave every queue in the order they entered it, and are dropped only for the
  reason they are counted under.
* **DERP framing** (`DerpFrames`, `DerpClient`, `DerpHandlers`). Frames, the client's peek-and-discard
  receiver and the server's frame handlers. Both ends stay on frame boundaries for every stream.
* **Taildrop** (`TaildropResume`, `TaildropStore`, `TaildropTransfers`). Resuming by block checksums,
  storing a file, and any number of transfers at once.
* **Disco** (`Disco.dfy`). The discovery message parser and marshalers.

`Wrappers.dfy` holds options, results, byte strings and sums over maps.

## How it is modelled

* `AUM.Hash` is a parameter `hash`. Where a proof needs it, the AUMs involved are assumed not to
  collide, and a ghost `rank` says that parent links have no cycles.
* SHA-256 in Taildrop is a parameter too: resuming assumes only that the blocks compared with each
  other do not collide, storing assumes an injective hash.
* Connections of the relay are known by their connection number, which the server never uses twice;
  the fields of a connection that the server lock guards are kept in a map by that number.
* Map iteration order, the clock, the write buffer's free space, the rate limiter and the outcome of
  writes are parameters or events.
* An event of a state machine that cannot happen in a state leaves the state as it is.

## What the proofs found

* A compaction that purges the parent of the new ancestor is the last one until that parent is
  committed again: with the same minimum the store cannot be compacted again, whatever else is
  committed, from the same head or any later one, because the commit time of the purged parent is
  asked for (`CannotCompactAgain`, with a store of three AUMs in `CompactsOnce`). Committing the parent
  again undoes the purge (`RecommitRestores`). `RecompactionExact` says exactly when a store that was
  cut before can be compacted.
* A state that could be computed before compaction can be computed after it exactly if no AUM on the
  way to it lost a child (`ComputingAfterCompaction`). That is always so for head
  (`HeadStillComputed`), but a kept young fork can lose its state when an old fork beside it is
  purged (`KeptButNotComputed`, a store of six AUMs).
* Two histories applied to a state without a last hash may end at one hash with different states
  (`UnstartedIsAmbiguous`); from a state that has a last hash they cannot (`ReplayDeterministic`).
* The server's consistency check compares the number of connections with the number of keys; they
  are equal exactly when no key has a second connection (`ConsistencyCheckExact`), and a key that
  connects twice makes them differ (`TwiceConnectedDiffers`).
* The forwarder index is one byte: the order of registration is kept, over a whole run, exactly if no
  forwarder ever joins a set whose highest index is 255 (`RunRefines`). The 257th forwarder of a key
  gets the index of the first (`WrapIsReached`), and when the oldest then leaves, the youngest is used
  (`WrapMisroutes`). So the oldest forwarder is used, whichever others leave, exactly if no index wraps
  (`OldestForwarderUsed`).
* A connection that is disabled when it sends changes nothing; only a reader that looked before the
  set was disabled gets past that (`DisabledSenderIsIgnored`, `OnlyFightsDisable`).
* A mesh update is written once there is room for 38 bytes, but an arrival takes 55, so that a write
  may flush after all (`MayFlush`, with the exact condition in `FitsWithoutFlush`).
* A transfer that starts at offset zero over a longer stale partial file keeps the stale end
  (`StalePartialKept`, with the exact condition in `ResumeRebuilds`); an offset outside the partial
  file is reported as a success that stored nothing (`Manager.PutFile`).
* Two clients can share a partial file exactly if one identifier is the other with something in front,
  up to a dot, that leaves names final (`CollisionExact`).
* A ping with an all-zero node key and 32 or more bytes of padding does not survive marshaling and
  parsing (`Disco.RoundTrip`).

## Model

| member | source | states |
|---|---|---|
| `TkaTypes.ValidateKey` | tka/key.go:111-138 | a key is accepted exactly when its kind is known, it has 1 to 4096 votes, and its metadata is not too large |
| `TkaTypes.ValidateCheckpoint` | tka/state.go:254-312 | a checkpoint state is accepted exactly when it carries no last hash, has enough valid disablement values without repeats, and valid keys with distinct IDs within the limit |
| `TkaTypes.ValidateAUM` | tka/aum.go:155-221 | an AUM is accepted exactly when its signatures and the fields of its kind are well formed and no field of another kind is set |
| `TkaState.GetKey` | tka/state.go:45-58 | a key that is found is in the state and has the ID asked for |
| `TkaState.GetKeyErr` | tka/state.go:45-58 | among valid keys the lookup fails exactly when no key has the ID |
| `TkaState.DropKeyKeeps` | tka/state.go:213-230 | removing succeeds exactly when the key is there, removes exactly that key, and keeps keys valid and distinct |
| `TkaState.ReplaceKeyKeeps` | tka/state.go:187-211 | replacing a key by one of the same ID keeps the keys valid, distinct and as many |
| `TkaState.ReplacedIsFound` | tka/state.go:187-211 | after replacing, the key put in is found under its ID, and every other lookup answers as before |
| `TkaState.ApplyMeans` | tka/state.go:139-243 | what every lookup of a key answers after an AUM: an added key is found, a removed one is not, an updated one has the votes and metadata that the AUM sets and keeps the others, a checkpoint says all, nothing else changes |
| `TkaState.ApplyKeepsRest` | tka/state.go:139-243 | an AUM that is no checkpoint changes nothing but keys and the last hash |
| `TkaState.ApplyVerifiedAUM` | tka/state.go:151-243 | the program's loops over the keys compute the next state, or the error, of the transition function |
| `TkaState.ApplyKeepsValid` | tka/state.go:139-243 | one well-formed AUM keeps keys valid with distinct IDs, keeps both state IDs, and makes its hash the last hash |
| `TkaState.ReplayKeepsValid` | tka/state.go:139-243 | the same over every run of well-formed AUMs |
| `TkaState.LinkedDeterministic` | tka/state.go:139-144 | without cycles and collisions, two linked lists of AUMs from one start to one hash are the same list |
| `TkaState.ReplayDeterministic` | tka/state.go:151-243 | two replays from one started state that end at the same hash applied the same AUMs and reach the same state |
| `TkaState.UnstartedIsAmbiguous` | tka/state.go:139-144 | every state without a last hash accepts any first AUM, so from each of them two replays to one hash can differ |
| `TkaStore.FS.CommitAUM` | tka/tailchonk.go:453-487 | one AUM is recorded with its parent and stored; the store stays coherent |
| `TkaStore.FS.CommitVerifiedAUMs` | tka/tailchonk.go:453-487 | the loop stores all AUMs and keeps the child lists |
| `TkaStore.FS.PurgeAUMs` | tka/tailchonk.go:490-512 | succeeds exactly when all hashes have records, and then exactly those are marked purged |
| `TkaStore.CommitOneKeepsCoherent` | tka/tailchonk.go:453-487 | after a commit each record is filed under its AUM's hash and child lists hold exactly the AUMs with that parent, once |
| `TkaStore.CommitAllStores` | tka/tailchonk.go:453-487 | after a commit the last AUM given under each hash is stored there and nothing else changed |
| `TkaTimes.BatchTimes` | tka/tailchonk.go:515-550 | a hash that had no record and is committed, or named as a parent, is recorded at the time of the commit; every other keeps its time, even a purged one that is committed again |
| `TkaTimes.CommitsRecorded` | tka/tailchonk.go:515-550 | over any commits, each at its own time, the time recorded is that of the first commit that mentions the hash |
| `TkaStore.PurgeKeepsCoherent` | tka/tailchonk.go:490-512 | purging removes exactly the given AUMs from what can be read and keeps the store coherent |
| `TkaStore.ChildAUMsIsScan` | tka/tailchonk.go:295-325 | the child index answers as a scan over all stored AUMs would, or fails exactly when a recorded child is gone |
| `TkaStore.Mem.CommitAUM` | tka/tailchonk.go:158-183 | one AUM is stored in memory and its parent's index entry stays exact and without repeats |
| `TkaStore.Mem.CommitVerifiedAUMs` | tka/tailchonk.go:158-183 | all given AUMs are stored, all others kept, and the index stays exact |
| `TkaStore.Mem.ChildAUMs` | tka/tailchonk.go:143-152 | the index gives exactly the stored AUMs with that parent, each once |
| `TkaStore.Mem.Heads` | tka/tailchonk.go:103-115 | exactly the stored AUMs that no stored AUM names as parent, each once |
| `TkaMark.MarkActiveChain` | tka/tailchonk.go:584-646 | marks active exactly head's chain back to its end or to the first checkpoint at least the minimum away, and as candidates exactly all behind it; fails exactly when there is no such end |
| `TkaMark.ActiveEndUnique` | tka/tailchonk.go:584-646 | there is at most one place where the active stretch can end |
| `TkaMark.MarkYoungAUMs` | tka/tailchonk.go:650-663 | exactly the AUMs committed after the given time gain the young mark; fails exactly when some time is unknown |
| `TkaMark.ScanAllDescendants` | tka/tailchonk.go:778-808 | the worklist terminates, with the marked set and then the worklist as measure, and leaves nothing pending |
| `TkaMark.MarkDescendantAUMs` | tka/tailchonk.go:778-808 | keeps exactly what was kept before and all descendants of it; fails only if one of these has a child that is not stored |
| `TkaIntersect.MarkForward` | tka/tailchonk.go:710-740 | moving the candidate back marks exactly the active chain between the new and the old candidate; succeeds exactly if the children of all of it can be looked up |
| `TkaIntersect.ScanAncestors` | tka/tailchonk.go:675-775 | the ancestor worklist terminates and its invariant holds with nothing pending, however often the candidate moves |
| `TkaIntersect.MarkAncestorIntersectionAUMs` | tka/tailchonk.go:675-775 | every kept AUM but the returned ancestor has its parent kept, nothing is kept that no kept AUM leads to, and the ancestor moved back no further than some kept AUM forces; succeeds exactly if everything kept meets at a stored AUM from which the chain can be walked and a checkpoint found |
| `TkaCompact.Compact` | tka/tailchonk.go:811-852 | succeeds exactly when its options are set and the store allows it: the active stretch ends, commit times are known, children of what must stay are stored, and what must stay meets; then exactly the chains from active or young AUMs and their descendants back to the returned ancestor remain; on failure nothing changes |
| `TkaTimes.KeptExactly` | tka/tailchonk.go:650-663 | what is left lies between the returned ancestor and an AUM that is active or recorded after the minimum time, or descends from such a one |
| `TkaTimes.RecentIsKept` | tka/tailchonk.go:650-663 | an AUM first committed after the minimum time, whatever was committed since, is not purged, nor is what descends from it |
| `TkaMeaning.SurvivorsReachAncestor` | tka/tailchonk.go:675-775 | every kept AUM reaches the returned ancestor by parent links through kept AUMs only |
| `TkaMeaning.OneTreeRemains` | tka/tailchonk.go:811-852 | nothing active or young, and no descendant of such, is purged; the returned ancestor is the only kept AUM whose parent is not kept |
| `TkaMeaning.CheckpointShortcut` | tka/tka.go:250-332 | starting at the nearest checkpoint gives the state of a full replay that succeeds |
| `TkaMeaning.CompactionKeepsStates` | tka/tailchonk.go:811-852 | the state at every kept AUM is the same after compaction as before, errors included |
| `TkaMeaning.CompactionKeepsReplay` | tka/tailchonk.go:811-852 | if replaying a kept AUM's stored chain succeeded before, replaying only kept AUMs from the returned ancestor gives the same state |
| `TkaMeaning.CompactedCoherent` | tka/tailchonk.go:490-512 | compaction leaves the child index coherent |
| `TkaMeaning.ChildLookupAfterCompaction` | tka/tailchonk.go:295-325 | children of an AUM can be looked up after compaction exactly when none of those ever committed is purged |
| `TkaAfter.ParentIsPurged` | tka/tailchonk.go:811-852 | a compaction that leaves the new ancestor without its stored parent has purged that parent |
| `TkaAfter.RecompactionExact` | tka/tailchonk.go:264-292 | a store whose chain was cut before can be compacted exactly while the chain is shorter than the minimum, young AUMs descend from the cut, and children of what must stay are stored |
| `TkaAfter.CutStays` | tka/tailchonk.go:453-487 | where a chain was cut it stays cut, and as long, whatever is committed but the AUM it was cut off from |
| `TkaAfter.BatchIsEach` | tka/tailchonk.go:453-487 | filing batch after batch, each at its own time, is filing their AUMs one after another |
| `TkaAfter.CannotCompactAgain` | tka/tailchonk.go:811-852 | after a compaction that purged the new ancestor's parent, and any commits but of that parent, no compaction with the same minimum succeeds, from the same head or any after it |
| `TkaExamples.CompactsOnce` | tka/tailchonk.go:811-852 | a store of three AUMs that can be compacted once and then not again |
| `TkaExamples.RecommitRestores` | tka/tailchonk.go:475-481 | committing the purged AUM of that store again brings back the store as it was, which can be compacted again |
| `TkaAfter.ComputingAfterCompaction` | tka/tka.go:250-332 | for a kept AUM the program computes after compaction what it computed before if no AUM on the way lost a child, and otherwise fails where it had succeeded |
| `TkaAfter.HeadStillComputed` | tka/tka.go:250-332 | the states at head and at whatever descends from the end of the active stretch are computed as before |
| `TkaExamples.KeptButNotComputed` | tka/tailchonk.go:295-325 | a store of six AUMs where compaction keeps a young fork whose state can no longer be computed |
| `TkaCompute.FindStart` | tka/tka.go:250-298 | walks back to the nearest checkpoint or genesis AUM, collecting exactly the path, or fails with what the computation then answers |
| `TkaCompute.ComputeStateAt` | tka/tka.go:250-332 | walking back and forward again gives, in every case, the specified answer, errors and iteration limits included |
| `TkaCompute.ForwardExact` | tka/tka.go:201-238 | going forward gives the state, errors included, unless a child is missing on the way; where there is a state, that is exactly what stops it |
| `TkaCompute.ComputedExact` | tka/tka.go:250-332 | a state within the limit is computed exactly if no AUM on the way to it has a child that is not stored |
| `TkaWeight.Weight` | tka/aum.go:320-357 | for valid signatures and keys there is no panic, and the result is the sum of votes over distinct signing keys known to the state |
| `TkaWeight.WeightBounded` | tka/aum.go:320-357 | the weight is at most the total votes of the state |
| `TkaWeight.WeightOfOneMore` | tka/aum.go:320-357 | one more signer adds its key's votes, or nothing if unknown |
| `TkaWeight.WeightIgnoresOrderAndRepeats` | tka/aum.go:320-357 | the weight does not change when signatures are reordered or repeated |
| `TkaWeight.PickNextAUM` | tka/tka.go:135-169 | picks the candidate preferred to all others: none weighs more; if one that weighs as much removes a key, so does the pick; and among the rest of its class its hash is lowest at the first byte that differs |
| `TkaWeight.PickIsUnique` | tka/tka.go:135-169 | the pick depends only on the set of candidates, so all nodes agree |
| `TkaBuilder.UpdateBuilder.MkUpdate` | tka/builder.go:34-58 | succeeds exactly if the signer answers and the signed AUM is well formed and applies; then the AUM with its parent set and the signer's signatures added extends the updates, and the state stays the replay of the updates with the parent as its last hash; otherwise nothing changes |
| `TkaBuilder.UpdateBuilder.AddKey` | tka/builder.go:61-71 | succeeds exactly if the key is valid, its ID not there yet, and the signer answers well; then the key is added last, otherwise nothing changes |
| `TkaBuilder.UpdateBuilder.RemoveKey` | tka/builder.go:74-79 | succeeds exactly if the key is there, its ID is not empty, and the signer answers well; then the key is gone, otherwise nothing changes |
| `TkaBuilder.UpdateBuilder.SetKeyVote` | tka/builder.go:82-87 | succeeds exactly if the key is there, stays valid with the new votes, can be replaced, and the signer answers well; then looking the key up finds it with the new votes and every other key as before, otherwise nothing changes |
| `TkaBuilder.UpdateBuilder.GenerateCheckpoint` | tka/builder.go:100-113 | succeeds exactly if the updates still apply to the authority, what they lead to is valid as a checkpoint with the same state IDs, and the signer answers well; then a checkpoint of it is appended which, if the authority has not moved, changes nothing but the last hash |
| `TkaBuilder.NeedsCheckpoint` | tka/builder.go:119-147 | a checkpoint is needed exactly when no checkpoint, genesis AUM or end of storage lies within the interval |
| `TkaBuilder.UpdateBuilder.Finalize` | tka/builder.go:119-162 | succeeds exactly if a checkpoint that is needed can be made and the authority has not moved under the updates; hands out the updates, with one more checkpoint exactly when none is near, based on the authority's head |
| `DerpDup.TrimKeeps` | derp/derp_server.go:281-290 | the filtered history has exactly the members that occurred, without equal neighbours |
| `DerpDup.TrimKeepsOrder` | derp/derp_server.go:281-290 | the filtered history keeps the order, and leaves out nothing of a member but repetitions |
| `DerpDup.RemoveClient` | derp/derp_server.go:271-295 | the in-place filter removes one connection and says whether it was there; the entries of the others keep their order, and who is active stays so, or is the other one whose entry comes last if the active one leaves |
| `DerpDup.RemoveKeepsValid` | derp/derp_server.go:271-295 | removing a member leaves a valid set or the one connection that remains |
| `DerpDup.AddKeepsValid` | derp/derp_server.go:542-549 | adding a connection keeps the set valid |
| `DerpDup.NoteSendKeepsValid` | derp/derp_server.go:1192-1228 | noting a sender keeps the set valid under both policies |
| `DerpClients.RegisterKeepsInv` | derp/derp_server.go:517-558 | registering keeps the tables in agreement and every gauge exact |
| `DerpClients.UnregisterKeepsInv` | derp/derp_server.go:577-626 | so does unregistering, whether a set dissolves or not |
| `DerpClients.NoteActivityKeepsInv` | derp/derp_server.go:1180-1229 | so does noting activity, disabling fighters included |
| `DerpClients.SetPreferredKeepsInv` | derp/derp_server.go:1415-1438 | so does a change of preference, and the home gauge counts the preferred |
| `DerpClients.GaugeLaw` | derp/derp_server.go:1876-1902 | connections beyond one per key are the duplicate connections less the duplicate keys |
| `DerpClients.ConsistencyCheckExact` | derp/derp_server.go:1904-1907 | the check of connections against keys holds exactly when no key has a second connection |
| `DerpServer.TwiceConnectedDiffers` | derp/derp_server.go:1904-1907 | a run of four steps in which one key connects twice has two connections and one key |
| `DerpMesh.MaxIndex` | derp/derp_server.go:1776-1784 | the loop finds the highest index in use |
| `DerpMesh.LowestFwd` | derp/derp_server.go:1791-1805 | the loop finds a forwarder of lowest index |
| `DerpMesh.AddRefines` | derp/derp_server.go:1682-1708 | registering a forwarder refines appending to a list, exactly when the one-byte index does not wrap |
| `DerpMesh.RemoveRefines` | derp/derp_server.go:1788-1813 | removing refines removal from the list: the next one used is the oldest left |
| `DerpMesh.RunRefines` | derp/derp_server.go:1758-1817 | over every run, however long, a key's entry always refines the list exactly if no index ever wraps around |
| `DerpMesh.FewJoinRefines` | derp/derp_server.go:1776-1784 | in particular if at most 254 forwarders ever join one set |
| `DerpMesh.AddForwarderKeepsInv` | derp/derp_server.go:1682-1708 | registering keeps local keys in the region, sets of at least two, and the counters of sets exact |
| `DerpMesh.RemoveForwarderKeepsInv` | derp/derp_server.go:1712-1748 | so does removing |
| `DerpWatch.BroadcastBelieves` | derp/derp_server.go:565-574 | an event queued for every watcher brings its mirror up to date |
| `DerpWatch.EnrollBelieves` | derp/derp_server.go:668-699 | a new watcher misses only the keys it is not told of, even if it asks twice |
| `DerpWatch.DrainBelieves` | derp/derp_server.go:1605-1642 | writing a prefix of the pending events, in order, loses nothing, even when the write fails |
| `DerpWatch.RewrittenPrefix` | derp/derp_server.go:1605-1642 | events written again after a failed write do not change what the peer believes |
| `DerpWatch.FitsWithoutFlush` | derp/derp_server.go:1601-1618 | a frame that the test for room lets through fits without a flush exactly if it tells a departure or there is room for 55 bytes |
| `DerpWatch.MayFlush` | derp/derp_server.go:1601-1618 | with 38 bytes free the test lets an arrival through that does not fit |
| `DerpServer.StepKeepsInv` | derp/derp_server.go:517-653 | every step keeps the whole invariant |
| `DerpServer.RunKeepsInv` | derp/derp_server.go:517-699 | every reachable state satisfies it |
| `DerpServer.TablesAgree` | derp/derp_server.go:517-653 | in every reachable state registered connections, sets, duplicate flags and the region's table agree, and forwarder sets have at least two, so the panics of lines 608, 634 and 1721 cannot happen |
| `DerpRecords.ConnectionsAreAsRegistered` | derp/derp_server.go:1415-1438 | a connection has the key, rights and address it registered with, and counts as home exactly if its client said so last |
| `DerpRecords.CountersCount` | derp/derp_server.go:526-545 | the total of double connections counts the registrations that met a connected key; the counter of odd removals counts those of a forwarder that is not the one there |
| `DerpRecords.RoutesAreRecorded` | derp/derp_server.go:632-653 | the record of who last sent to whom says what the run says |
| `DerpServer.EveryDupSetValid` | derp/derp_server.go:240-295 | in every reachable state a duplicate set has at least two members, an active one among them, and a history of members without equal neighbours that misses at most one; the gauges are exact |
| `DerpServer.NoDupDrops` | derp/derp_server.go:926-1037 | under the last-writer policy every registered key has an active connection and no packet is dropped for a second one |
| `DerpServer.DupDropExact` | derp/derp_server.go:926-1037 | under either policy that drop, of a client's or a mesh peer's packet, happens exactly when the set's active connection is disabled |
| `DerpFights.DisabledExactly` | derp/derp_server.go:1189-1229 | at every point of every run under the fighting policy a registered connection is disabled exactly if a fight was noted in its set since it registered and it has not been left alone since |
| `DerpFights.DropsAfterFights` | derp/derp_server.go:1018-1027 | so a packet is dropped for a second connection exactly when the key has several and the one elected last was in such a fight |
| `DerpServer.NewestIsActive` | derp/derp_server.go:517-550 | a connection that registers is its key's active one, under either policy |
| `DerpElection.RunLogged` | derp/derp_server.go:517-549 | at every point of every run a set's history is the log of all who registered or sent for the key, restricted to its members |
| `DerpElection.LastNotedTakesOver` | derp/derp_server.go:271-295 | when the active connection of a key with several others unregisters, the one of them that was noted last in the run takes over |
| `DerpElection.ActiveStays` | derp/derp_server.go:271-295 | when another one unregisters, who is active stays so |
| `DerpElection.FightsExactly` | derp/derp_server.go:1207-1228 | a sender fights exactly if it was noted before and another one still connected has been noted since |
| `DerpServer.SenderIsActive` | derp/derp_server.go:1199-1205 | under the last-writer policy whoever sends is the active one of its key |
| `DerpServer.FightersAreDisabled` | derp/derp_server.go:1207-1228 | under the other policy a connection whose activity is noted, and that sent before another one did, disables its whole set; one that has not sent yet or sent last disables nobody |
| `DerpServer.DisabledSenderIsIgnored` | derp/derp_server.go:1180-1188 | a connection that is disabled when it sends changes nothing |
| `DerpServer.OnlyFightsDisable` | derp/derp_server.go:1207-1228 | no other event ever disables a connection, and a fight only those of its set |
| `DerpServer.LoneSurvivorIsActive` | derp/derp_server.go:596-614 | the last connection left of a key is enabled and active again |
| `DerpServer.EveryWatcherBelieves` | derp/derp_server.go:668-699 | at every point of every run, under either policy, what a watcher was told and is still to be told amounts to the connected keys, but for those without an active connection when it enrolled that have had no new connection since |
| `DerpServer.EveryWatcherMirrors` | derp/derp_server.go:557-574 | under the last-writer policy it amounts to exactly the connected keys |
| `DerpAddresses.WatchersHearAddresses` | derp/derp_server.go:557-574 | the last a watcher was or is to be told of a key is the address of the connection that registered last since it enrolled, or of the active one when it did, or that the key is gone |
| `DerpServer.LeavingTellsExactly` | derp/derp_server.go:632-653 | at every step of every run that takes a source out of the region, exactly the connections still registered that its latest packets went to since it last left are told, and it is forgotten; at other steps nobody is told |
| `DerpServer.DeliveredToKey` | derp/derp_server.go:984-1006 | a packet is delivered to a registered connection of the key it is for |
| `DerpServer.RunEntry` | derp/derp_server.go:1682-1748 | a key's entry in the region depends only on the forwarder operations on it, whatever else happens |
| `DerpOldest.WrapMisroutes` | derp/derp_server.go:1776-1813 | the forwarder whose index wraps is preferred as soon as the oldest leaves, though it is the youngest left |
| `DerpOldest.WrapIsReached` | derp/derp_server.go:1776-1784 | 256 forwarders can register for a key without a wrap, and the next one wraps |
| `DerpOldest.OldestExactly` | derp/derp_server.go:1750-1817 | over every run on one key, whichever forwarders leave at any point, the oldest is used exactly if no index wraps |
| `DerpOldest.OldestForwarderUsed` | derp/derp_server.go:1682-1761 | the same over every run of the server, whatever else happens in it |
| `DerpOldest.OldestNotAlwaysUsed` | derp/derp_server.go:1776-1813 | a server that 257 forwarders registered with for one key does not always use the oldest |
| `DerpServerObject.Server.Accept` | derp/derp_server.go:441-447 | hands out a connection number never used before |
| `DerpServerObject.Server.BroadcastPeerStateChange` | derp/derp_server.go:565-574 | the loop queues the event for every watcher and changes nothing else |
| `DerpServerObject.Server.RegisterClient` | derp/derp_server.go:517-558 | is the registering step of the machine |
| `DerpServerObject.Server.UnregisterClient` | derp/derp_server.go:577-626 | is the unregistering step; requests go to exactly the connections of the announcement, each once, or to nobody |
| `DerpServerObject.Server.GoneRequests` | derp/derp_server.go:632-651 | the loop finds exactly the connections to tell, each once |
| `DerpServerObject.Server.NotePeerGoneFromRegion` | derp/derp_server.go:632-653 | announces a source to them, each once, and erases its record |
| `DerpServerObject.Server.HearClient` | derp/derp_server.go:1180-1188 | the look at the connection's own flags without the lock goes on exactly for a duplicate that is not disabled |
| `DerpServerObject.Server.NoteClientActivity` | derp/derp_server.go:1189-1229 | is the activity step, perhaps much later |
| `DerpServerObject.Server.HandleActivity` | derp/derp_server.go:1180-1229 | undisturbed, the one after the other |
| `DerpServerObject.Server.SetPreferred` | derp/derp_server.go:1415-1438 | is the preference step |
| `DerpServerObject.Server.AddWatcher` | derp/derp_server.go:668-699 | enrolls a watcher after going through every connected key once and announcing those with an active connection |
| `DerpServerObject.Server.SendMeshUpdates` | derp/derp_server.go:1605-1642 | writes the longest prefix there is room for, up to a failure, and keeps the rest |
| `DerpServerObject.Server.RouteSendPacket` | derp/derp_server.go:984-1027 | decides a client's packet and records the route |
| `DerpServerObject.Server.RouteForwardPacket` | derp/derp_server.go:926-960 | decides a mesh peer's packet and records the route |
| `DerpServerObject.Server.AddPacketForwarder` | derp/derp_server.go:1682-1708 | is the registering step for forwarders |
| `DerpServerObject.Server.RemovePacketForwarder` | derp/derp_server.go:1712-1748 | is the removing step; requests go to exactly the connections of the announcement, each once, or to nobody |
| `DerpServerObject.DeleteFrom` | derp/derp_server.go:1788-1813 | removes a forwarder from a set and picks a new preferred one of lowest index |
| `DerpPackets.StepBalanced` | derp/derp_server.go:1080-1120 | no atomic action of any goroutine changes the balance of packets, however packets are weighed |
| `DerpPackets.RunBalanced` | derp/derp_server.go:984-1120 | over every interleaving what came in is what went out, was dropped, or is still inside, for every weighing |
| `DerpPackets.RunTallied` | derp/derp_server.go:1060-1062 | over every interleaving each counter counts its packets, and drops are counted once in the total and once by reason |
| `DerpPackets.PacketConservation` | derp/derp_server.go:1290-1339 | the law of the packet counters at every point of every interleaving |
| `DerpPackets.QuietConservation` | derp/derp_server.go:1060-1120 | without exceptions when no goroutine is in the middle of anything |
| `DerpPackets.SentWasReceived` | derp/derp_server.go:1649-1678 | no packet is sent more often than it came in |
| `DerpPackets.NothingMisdelivered` | derp/derp_server.go:1080-1120 | queues never exceed their depth, and queues and writers hold only packets for the key their connection registered under |
| `DerpQueues.FirstInFirstOut` | derp/derp_server.go:1459-1540 | over every interleaving the packets ever put into a queue are, in order, those ever removed from it followed by those in it |
| `DerpQueues.WrittenInOrder` | derp/derp_server.go:1459-1540 | packets written from a queue keep the order in which they were queued |
| `DerpQueues.WritesFromQueue` | derp/derp_server.go:1459-1540 | every packet that is being written was taken from a queue of its connection |
| `DerpQueues.RoutingIsServerStep` | derp/derp_server.go:926-1027 | routing a packet is the server's own step for it |
| `DerpQueues.SourcesAreGenuine` | derp/derp_server.go:984-1037 | what clients sent is received under the key that their connection registered under, what mesh peers sent as they sent it |
| `DerpDrops.ReasonsCountCauses` | derp/derp_server.go:1060-1120 | over every interleaving the counter of each drop reason, with the goroutines about to count, is the number of times that it was the cause |
| `DerpPackets.RouteOutcome` | derp/derp_server.go:926-1037 | what becomes of a packet and which drop reason applies, in terms of who is connected and where it came from |
| `DerpPackets.NeverDropsDup` | derp/derp_server.go:1018-1027 | under the last-writer policy the counter of drops for a second connection stays zero |
| `DerpPackets.SendPkt` | derp/derp_server.go:1080-1120 | under any interference the packet is queued or dropped, never both; undisturbed it is always queued and at most one packet is dropped for it |
| `DerpPackets.UndisturbedQueues` | derp/derp_server.go:1080-1120 | the goroutine of the machine, left alone, does the same |
| `DerpFrames.FirstOfEncoded` | derp/derp.go:171-235 | a frame that was written is read back, whatever follows |
| `DerpFrames.FrameLayout` | derp/derp.go:171-235 | type, then length with its highest byte first, then body |
| `DerpFrames.EncodedFirst` | derp/derp.go:171-235 | a stream starts with exactly the bytes of the frame read from it |
| `DerpFrames.Reader.ReadUint32` | derp/derp.go:148-161 | reads four bytes, one at a time, as a big-endian number |
| `DerpFrames.Reader.ReadFrameHeader` | derp/derp.go:171-181 | reads a type and a length, or nothing |
| `DerpFrames.Reader.ReadFrame` | derp/derp.go:193-214 | leaves the stream after the frame whether or not it fitted the buffer; names the exact case of each error |
| `DerpFrames.Writer.WriteUint32` | derp/derp.go:133-146 | writes a number so that reading gives it back |
| `DerpFrames.Writer.WriteFrame` | derp/derp.go:224-235 | writes exactly the bytes of the frame, unless it is unreasonably large |
| `DerpClient.Client.ReadOne` | derp/derp_client.go:470-509 | peeked or read, a frame is accounted for exactly: what is left starts after it |
| `DerpClient.Client.Recv` | derp/derp_client.go:458-606 | for any buffer size, the next message of frame-by-frame decoding; the first error is final; a server info sets the rate limit, nothing else does |
| `DerpClient.RecvAll` | derp/derp_client.go:454-606 | receiving until failure yields all messages of the stream |
| `DerpClient.ReceivesAll` | derp/derp_client.go:458-606 | over the bytes of any frames of allowed size, receiving gives what the frames say, skipping unknown and short ones |
| `DerpClient.ServerFrameDecodes` | derp/derp_server.go:1549-1599 | the client reads back what the server writes, exactly when a packet has a source and an address is plain |
| `DerpClient.OtherFrameDecodes` | derp/derp_client.go:571-604 | pings, health problems and restart announcements are read back whatever follows their fixed part |
| `DerpClient.ServerInfoDecodes` | derp/derp_client.go:512-529 | a server info says what its sealed contents are; one that cannot be opened ends the connection |
| `DerpClient.SkippedExactly` | derp/derp_client.go:510-604 | a frame is passed over exactly if its type is unknown or it is too short |
| `DerpHandlers.HandleUnknown` | derp/derp_server.go:837-840 | skips exactly the declared length |
| `DerpHandlers.HandleNotePreferred` | derp/derp_server.go:842-852 | succeeds exactly on one byte and consumes it |
| `DerpHandlers.HandleWatchConns` | derp/derp_server.go:854-863 | succeeds exactly on an empty body with permission |
| `DerpHandlers.HandlePing` | derp/derp_server.go:865-890 | succeeds exactly on 8 to 1000 bytes and consumes them all |
| `DerpHandlers.HandleClosePeer` | derp/derp_server.go:892-922 | succeeds exactly on a key with permission |
| `DerpHandlers.HandleSendPacket` | derp/derp_server.go:1290-1313 | succeeds exactly on a key and at most 64 KiB and consumes the declared length |
| `DerpHandlers.HandleForwardPacket` | derp/derp_server.go:1318-1339 | succeeds exactly on two keys and at most 64 KiB, with permission, and consumes the declared length |
| `DerpHandlers.Handle` | derp/derp_server.go:815-832 | whichever handler runs, success means that exactly the frame was consumed and understood |
| `DerpHandlers.Serve` | derp/derp_server.go:783-835 | the loop yields the requests of the stream up to its end or the first refused frame |
| `DerpHandlers.FrameMeans` | derp/derp_client.go:206-334 | the server finds in a client's frame what was sent, unless permission is missing |
| `DerpHandlers.RequestLayout` | derp/derp_client.go:206-334 | what stands where in each request; a mesh peer names source before destination |
| `DerpHandlers.ServerGetsWhatIsSent` | derp/derp_client.go:206-334 | whatever requests a client sends, the server gets exactly these, up to the first without permission |
| `DerpHandlers.Send` | derp/derp_client.go:206-235 | writes exactly the frame of the packet, or nothing when it is too big or the limiter drops it |
| `DerpHandlers.SendForward` | derp/derp_client.go:237-267 | writes exactly the frame of the forwarded packet, or nothing when it is too big |
| `TaildropResume.HashPartialFile` | taildrop/resume.go:111-156 | the checksums of the blocks of the part asked for; nothing for a missing file, an error for a negative offset |
| `TaildropResume.ResumeReader` | taildrop/resume.go:162-214 | whatever it is told, it hands on exactly the content from the offset it returns |
| `TaildropResume.CompareBlocks` | taildrop/resume.go:188-207 | the inner loop stops at the first block that differs, which goes back in front of the rest |
| `TaildropResume.MatchIsEqual` | taildrop/resume.go:158-161 | what is skipped is equal on both sides |
| `TaildropResume.MatchIsLongest` | taildrop/resume.go:158-161 | and no further block would match |
| `TaildropResume.ResumesAtLongestMatch` | taildrop/resume.go:111-214 | asking in stretches, the sender stops at the longest run of equal leading blocks, as it would with one request for all |
| `TaildropStore.PartialPathsDistinct` | taildrop/taildrop.go:38-43 | nonempty client identifiers without dots never share a partial file |
| `TaildropStore.PartialPathsMayCollide` | taildrop/taildrop.go:38-43 | others can |
| `TaildropStore.CollisionExact` | taildrop/taildrop.go:38-43 | two identifiers can share a partial file, for some final names, exactly if one is the other with something in front, up to a dot, that leaves names final |
| `TaildropStore.NumberedIsFinal` | taildrop/taildrop.go:259-270 | a name numbered before an extension it has never becomes a partial file's name |
| `TaildropStore.ResumeRebuilds` | taildrop/send.go:143-172 | sending from the longest match rebuilds the content exactly when something is skipped or the partial file is not longer |
| `TaildropStore.StalePartialKept` | taildrop/send.go:143-172 | a longer stale partial file is not cut at offset zero |
| `TaildropStore.Manager.CopyChunks` | taildrop/send.go:143-172 | seek, truncate and copy leave the start up to the offset and then the data |
| `TaildropStore.Manager.RenamePartial` | taildrop/send.go:188-238 | the loop renames to the first of ten names that is free or holds the same content, and never overwrites |
| `TaildropStore.ChosenIsFirst` | taildrop/send.go:188-238 | the names are tried in order, and none is found exactly if none of them fits |
| `TaildropStore.FirstIsChosen` | taildrop/send.go:188-238 | and the first that fits is chosen |
| `TaildropStore.StoringOverwritesNothing` | taildrop/send.go:105-242 | storing a file, in every case, changes no file but its partial file, and makes at most one new one, under the first name that will do |
| `TaildropStore.Manager.PutFile` | taildrop/send.go:73-242 | the files and the result in every case, errors included; a refused transfer changes nothing |
| `TaildropTransfers.StepKeeps` | taildrop/send.go:105-242 | every step of a transfer keeps the invariant and changes no file but the transfer's own partial file |
| `TaildropTransfers.NothingOverwritten` | taildrop/send.go:185-242 | however transfers interleave, as long as no two run on one partial file, no file that existed under a final name changes, and every finished transfer's file holds its content |
| `TaildropTransfers.UnsharedSuffices` | taildrop/send.go:105-122 | it suffices that the transfers a run begins have partial files of their own |
| `TaildropTransfers.FinishIsExact` | taildrop/send.go:188-238 | a transfer that finishes leaves exactly its partial file's bytes, of the length announced, under a final name, and the partial file is gone |
| `TaildropTransfers.RenameProgress` | taildrop/send.go:191-238 | the rename attempts are at most ten and each step comes nearer to the end |
| `TaildropTransfers.FinishesUnderFirstFit` | taildrop/send.go:188-238 | however transfers interleave, a transfer finishes under the name it would have been given had all its attempts been made at that moment: the first of the ten that is free or holds the same content |
| `TaildropTransfers.ResumedTransfer` | taildrop/send.go:61-72 | sender and receiver together: a resumed transfer that succeeds stored exactly the sender's content |
| `TaildropTransfers.BeganWith` | taildrop/send.go:105-172 | a running transfer has the offset and length it began with and what its partial file held then |
| `TaildropTransfers.ResumedAmongOthers` | taildrop/send.go:61-242 | however transfers interleave, a resumed transfer that finishes stored exactly the sender's content if and only if something was skipped or the partial file was no longer than the content |
| `Disco.WrapperHasSource` | disco/disco.go:55-70 | a wrapped payload is recognised and its sender read back |
| `Disco.WrapperExact` | disco/disco.go:55-63 | and nothing else is recognised |
| `Disco.AddrRoundTrip` | disco/disco.go:206-221 | the sixteen-byte form brings back exactly the plain addresses: no zone, not IPv4-mapped, not missing |
| `Disco.ParseEncode` | disco/disco.go:74-258 | what is parsed from the bytes of any message |
| `Disco.RoundTrip` | disco/disco.go:74-258 | parsing inverts marshaling exactly for messages with plain addresses, and pings with a key or less than 32 bytes of padding |
| `Disco.WireLayout` | disco/disco.go:133-243 | what stands where in the bytes of each message |
| `Disco.EncodeInjective` | disco/disco.go:133-243 | different encodable messages have different bytes |
| `Disco.ParsedIsEncodable` | disco/disco.go:148-258 | what was parsed survives a second trip, but for one named shape of ping |
| `Disco.MarshalPing` | disco/disco.go:133-146 | appends exactly the bytes of the ping |
| `Disco.MarshalPong` | disco/disco.go:236-243 | appends exactly the bytes of the pong |
| `Disco.MarshalCallMeMaybe` | disco/disco.go:195-204 | the loop appends exactly the records of all endpoints |
| `Disco.ParseCallMeMaybeLoop` | disco/disco.go:206-221 | the loop reads all records of eighteen bytes, and nothing from other bodies |

## Left out

- Cryptography, CBOR and JSON: hashes, signatures and sealed frames are parameters.
- `tka/sig.go`, `tka/deeplink.go`, `tka/sync.go` and the authority's bootstrap and inform operations: not modelled.
- `SetKeyMeta` of the builder: it would only add an easy member beside `SetKeyVote`.
- `Clone` and `cloneForUpdate`: values are immutable here, so that a copy shares nothing with its original is not captured.
- Nil and empty slices are told apart in AUMs only where the code tests for nil.
- Records of AUMs without a commit time, which count by the time of their file: not modelled.
- Errors of the disk, atomic file writes and the directory layout of the file store: it is a map from hash to record.
- Pointer identity of connections and duplicate sets: connections are numbers and sets are values in a map.
- The server's `Close`, address table, metacert, HTTP debugging, `ss` parsing and exported variables: I/O plumbing.
- Timers, rate limits, keep-alives, peer-gone requests on their way to the writer, and logging.
- Names of drop-reason labels: the label list and the constants are not in the same order; counters are modelled by constant.
- Write errors of the client's sending side, and the login handshake.
- `NextFilename`: a parameter that keeps final names final; `NumberedIsFinal` says why its shape does.
- Checks of file names other than the partial suffix, `AvoidFinalRename` mode, deletion of partial files, and progress notification.
- `PartialFiles`: listing a directory.
- Pings with negative padding: the padding is a natural number.
- TaildropTransfers.NothingOverwritten: assumes that no two transfers run on one partial file, because what happens to a file that two handles write is not modelled.
- TaildropStore.Manager.PutFile: assumes an injective hash when a file of the same length exists, as the code trusts SHA-256.
