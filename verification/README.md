# A Dafny model of the WireGuard gateway operator

The operator runs Gateways: a fleet of cloud instances behind a load balancer on one side, link replicas on cluster
nodes on the other, with WireGuard tunnels between them. This project models the parts whose guarantees hold over whole
runs rather than over one call, and proves those guarantees.

- **Fleet members** (`Members`, `MemberSafety`, `MemberRuns`, `MemberResults`, `MemberPass`, `Discovery`, `Records`,
  `LinkConfig`, `Fleet`). `Members` specifies a pass as a function of store, snapshot and the answers its calls get.
  `MemberPass` is the pass as it runs, on a mutable store, proved equal to it. A run is a sequence of passes; between
  passes other writers may change records that are not this Gateway's. `Fleet` carries the result to the composite, the
  link and the status, with every stage able to fail.
- **Addresses and identities** (`Addresses`, `FleetAddresses`, `Identity`, `LinkIds`). Bit-level names and numbers, the
  counting loop behind tunnel addresses, and the allocator whose claims live in status and annotation.
- **The node** (`Node`, `DataPlane`, `Conntrack`). A kernel with interfaces, policy rules, routes and nft tables; every
  command may run, be refused, be refused although it took effect, or find nothing to do. The plans run over it.
- **Leadership** (`Election`, `AcquisitionLock`, `ElectionChoice`). The goroutines around one data plane as a transition
  system with atomic steps at mutexes and channels, any number of endCycle calls, and late callbacks.
- **Views that must agree** (`Endpoints`, `Reload`, `Drift`). Endpoint scores against snapshots, the reload loop's memory
  against the rules in place, hash-gated writes against out-of-band edits.

## Assumptions

- The API server is atomic and one operator works serially. A write may fail, or land and report failure; cache staleness
  is modelled only for link ids, where the reconciled copy may be older than the cluster.
- A load-balanced Gateway keeps its subnet and addresses for life, so its capacity is fixed.
- client-go writes the Lease only inside its Run, and starts the leadership callback exactly when an acquisition write
  succeeded. When contexts end and clocks fire is open; what each goroutine waits for is not.
- Key generation, public-key derivation, hashing, the parsing of addresses, DNS and clocks are parameters. Only these facts
  about them are used: generated keys are non-empty, hashes are injective, parsing reads back the dotted form.
- A link process keeps the identity it started with; the loader refuses a config with another.
- Forwards of one config have distinct names, as the operator names them after protocol and port.

## Where code and comments disagree

- The record's departure counter is described as 0 once departed. The code leaves 3, or the count it had when the listing
  reported the departure. The model follows the code.
- Pending confirmation is described as set once. The code clears it when the member is listed as present again. The model
  follows the code.

## Properties that need a condition

- A live plane has an owner only while fences complete: the code logs an incomplete fence and goes on. It is without one
  if and only if a fence of a live plane came back incomplete and no cycle has claimed the plane since:
  `Election.OwnerlessIff`. `Election.FailedExitFenceOrphans` leaves a plane behind.
- A Lease is let go behind the fence unless endCycle gave up on that cycle with its acquisition write in flight or its
  loop unregistered; other timeouts are harmless. `Election.UnregisteredTimeoutBreaksOrder` and
  `Election.UndrainedTimeoutBreaksOrder` show that each of the two breaks the order wherever it happens.
- A cycle's acquisition answer is final exactly when no write can still land: `AcquisitionLock.CanAcquireIff`.
- A re-created Gateway regains its annotated id exactly when nobody has taken it since: `LinkIds.TakenIdIsLost`,
  `LinkIds.RestoreKeepsClaimsIff`.
- Every tuple ever loaded is on the node or flushed if and only if no step-down has deleted a non-empty ruleset with
  nothing loaded since: `Conntrack.AllSettledIff`, with `Conntrack.StepDownLeavesFlows` for a run outside it. The next
  completed apply settles such a tuple: `Conntrack.NextApplySettles`.
- A rule outlasts a pending lookup exactly while the loop knows the rules on the node: `Reload.LossPossibleIff`. A first
  config that misses a forward of the plane taken over breaks that, and so can an apply that loads its ruleset with a slot
  down, or rules left by an incomplete fence that no flag announces.
- Order independence of a listing needs entries of equal name to be equal. That is exact for the map of names the pass
  reads, `MemberResults.ListingOrderMatters`; for the pass itself, entries that disagree on whether a recorded member is
  present make the order matter, `MemberResults.ListingOrderDecides`, while a difference no branch reads does not.
- A teardown that goes on past a refused step can leave a rule without its interface: `Node.RefusedRuleDeleteOrphans`, with
  the exact condition in `Node.SweepAnchoredIff`.

## Model

| member | source | states |
|---|---|---|
| `MemberRuns.SlotQuarantine` | internal/gcpmembers/reconcile.go:107-189 | Over every run of passes: if one name has a peer on a slot and another name later has one on it, two passes over usable snapshots in between publish nobody on that slot; the first of them starts the retirement, the second deletes the record. |
| `MemberRuns.DeletionIsConfirmed` | internal/gcpmembers/reconcile.go:376-418 | In every run a record disappears only in a pass over a usable snapshot that does not list it as present, with its cloud resources absent, the composite synced and no peer for it; an earlier pass over a usable snapshot, publishing no peer for it either, marked it pending confirmation, and it has been pending ever since. |
| `MemberRuns.MarkingWithdrawsPeer` | internal/gcpmembers/reconcile.go:345-358 | In every run a record becomes pending confirmation only in a pass over a usable snapshot that publishes no peer for it. |
| `MemberRuns.RunDebounce` | internal/gcpmembers/reconcile.go:139-189 | Over every run: while a record is not pending confirmation its counter equals the number of most recent consecutive usable snapshots that reached the name and omit it, and is at most 2; unusable passes never move it. |
| `MemberRuns.ReachingShows` | internal/gcpmembers/reconcile.go:300-373 | Deciding on an unlisted name always changes its record, and on a present one leaves it unchanged only with the counter at 0: a cut-short pass reached a name whose counter matters exactly if it changed the record. |
| `MemberRuns.ListedStays` | internal/gcpmembers/reconcile.go:300-342 | In every run a recorded name listed with any action but deleting or abandoning is never counted absent: after a completed pass it has its peer on the same slot, key and address, with the counter at 0 and confirmation cleared. |
| `MemberRuns.RunIsSafe` | internal/gcpmembers/reconcile.go:89-128 | The slot and address invariant holds before and after every pass of every run from an empty store. |
| `MemberRuns.HeldSlotExcludesOthers` | internal/gcpmembers/reconcile.go:95-128 | In every run a name that holds a slot when a pass begins keeps every other name's peer off that slot for the pass, even if its record is deleted within it. |
| `MemberSafety.PassIsSafe` | internal/gcpmembers/reconcile.go:65-192 | After every single write of every pass, also one cut short by an error: owned records have distinct slots below capacity with those slots' addresses, and a surviving record keeps slot, key and address. |
| `MemberSafety.TryAllocateEffect` | internal/gcpmembers/reconcile.go:224-264 | An allocation adds at most its own name, on the lowest free slot, with counter 0 and not pending; no other record is touched. |
| `MemberSafety.DecideKeeps` | internal/gcpmembers/reconcile.go:300-418 | Every outcome for a name keeps its allocation or deletes it whole, keeps the counter in bounds, and a member with a peer still has its record. |
| `MemberPass.Reconcile` | internal/gcpmembers/reconcile.go:65-192 | The pass as it runs, over maps walked in any order: final store and result equal the specification Members.Reconcile, for every combination of answers and failures. |
| `MemberPass.AllocateInOrder` | internal/gcpmembers/reconcile.go:107-128 | The allocation loop leaves the store, the error flag and the adopted map of the specification. |
| `MemberPass.SettleInOrder` | internal/gcpmembers/reconcile.go:130-191 | The settling loop leaves the store, statuses and live records of the specification, deciding on adopted records rather than re-reading. |
| `MemberPass.Adopt` | internal/gcpmembers/reconcile.go:89-105 | Whatever the map order: exactly the records this Gateway owns are adopted and exactly their slots are occupied; it fails exactly when a name has no valid Secret name. |
| `MemberPass.LowestFreeSlotOf` | internal/gcpmembers/reconcile.go:201-208 | The slot scan finds the lowest unoccupied slot below capacity, or none when all are taken. |
| `MemberResults.ListingOrderIrrelevant` | internal/gcpmembers/reconcile.go:65-192 | The whole pass, every write and the result, is the same for any two snapshots with the same set of entries and the same details, where entries of equal name are equal. |
| `MemberResults.ListingOrderMatters` | internal/gcpmembers/reconcile.go:71-74 | For the map of listed names that condition is exact: entries that disagree under one name can be reordered into a listing with another map. |
| `MemberResults.ListingOrderDecides` | internal/gcpmembers/reconcile.go:300-358 | Where entries disagree on whether a recorded member, not yet pending, is present or departed, some reordering of the listing gives a different pass, for every safe store and all answers, unless both passes are cut short. |
| `MemberResults.SlotsInNameOrder` | internal/gcpmembers/reconcile.go:107-128 | Without name collisions or failures the i-th new name in ascending order gets the i-th free slot, and names beyond the free slots get no record. |
| `MemberResults.PassPublishes` | internal/gcpmembers/reconcile.go:130-191 | A completed pass publishes every listed or tracked name exactly once, ascending, unless it released it; peers and roster are exactly those of the Active, Recreating and Departing members, in order, with their slots and addresses. |
| `MemberResults.RenderedPeersValidate` | internal/controller/link.go:293-314 | The link peers rendered from a completed pass always pass the link's own validation. |
| `MemberResults.DecisionShape` | internal/gcpmembers/reconcile.go:137-188 | A name is left out of the members exactly when it was released, and has a peer exactly when its state is Active, Recreating or Departing. |
| `LinkConfig.ValidatePeers` | internal/link/config.go:202-215 | Accepts exactly the peer lists with a key each and pairwise distinct slots in 0..255. |
| `Members.KeyIsSecretName` | internal/gcpmembers/records.go:94-122 | The Secret a record is looked up under is the naming contract's; the empty name has none. |
| `Discovery.ClassifyMeaning` | internal/gcpdiscovery/client.go:46-61 | Departed exactly for deleting and abandoning; a recorded name is otherwise present; pending exactly without id, record and recreation. |
| `Discovery.List` | internal/gcpdiscovery/client.go:156-230 | A snapshot comes out exactly when every wanted detail read succeeds with the listed id; then every entry is judged in order and details are exactly the wanted ones. |
| `Records.SecretRoundTrip` | internal/gcpmembers/records.go:231-292 | Decoding the Secret of a record gives the record back. |
| `Records.UpdateLabelsRefinesPatch` | internal/gcpmembers/records.go:347-364 | Writing labels decodes to the patched record, leaves the bundle alone and keeps slot, key, address and owner. |
| `Records.SecretNamesCollideIff` | internal/gcpmembers/records.go:94-122 | Two members of a Gateway share a Secret name exactly when their names differ only in letter case. |
| `Fleet.Controller.Reconcile` | internal/controller/gateway_controller.go:204-338 | One pass from discovery to publication: each of composite, link peers and status members either stands or becomes what this pass found; with no usable result they are a frame, and records move only in the members stage. |
| `Fleet.Controller.DiscoverMembers` | internal/controller/members.go:121-211 | Without a reported group the applied target stands and no record is touched; otherwise the stage is the member pass. |
| `Fleet.UnusablePassesAreFrames` | internal/controller/gateway_controller.go:270-338 | However many passes go by without a usable result, target size, roster, link peers and status members stay what they were. |
| `Fleet.LastUsablePassShows` | internal/controller/members.go:214-264 | A usable pass none of whose stages fails publishes exactly its result, and every later unusable pass keeps showing it. |
| `Fleet.RunIsSound` | internal/controller/xgateway.go:197-203 | Over every run the composite's target size never exceeds capacity, the applied link peers always validate and the records stay safe. |
| `Fleet.WhenNothingIsPublished` | internal/controller/gateway_controller.go:270-297 | Over capacity, without a snapshot, without a reported group or without a composite a pass is never a published one. |
| `Addresses.TunnelAddresses` | internal/controller/gcp_zones.go:23-58 | Rejects exactly unusable or equal gateway and link addresses; otherwise returns the capacity-1 lowest usable hosts, ascending, without the gateway's and the link's, for every prefix from /0 to /30. |
| `Addresses.CountHosts` | internal/controller/gcp_zones.go:46-57 | The counting loop: exactly the wanted number of hosts, ascending, none skipped but the taken ones; the 32-bit sum never wraps. |
| `Addresses.LowestFreeUnique` | internal/controller/gcp_zones.go:46-57 | Only one address list meets that description. |
| `Addresses.UsableHost` | internal/controller/gcp_zones.go:95-106 | The mask-and-compare test accepts exactly the IPv4 addresses strictly between network and broadcast address. |
| `Addresses.CapacityOf` | internal/controller/gcp_zones.go:70-77 | At most 256, and positive exactly for IPv4 prefixes up to /30. |
| `Addresses.NetworkFits` | internal/controller/gcp_zones.go:81-91 | A masked network ends inside the 32-bit range. |
| `Addresses.BytesRoundTrip` | internal/controller/gcp_zones.go:108-114 | The two conversions between address bytes and numbers undo each other. |
| `Addresses.DottedInjective` | internal/controller/gcp_zones.go:55 | Different hosts print differently. |
| `FleetAddresses.SlotAddressesDistinct` | internal/gcpmembers/reconcile.go:212-221 | Every slot below capacity has an address; the addresses are usable hosts, pairwise different and none the link's. |
| `FleetAddresses.SafeAddresses` | internal/gcpmembers/reconcile.go:212-264 | In every safe store, so after every write: any two owned records hold different usable hosts, none the link's. |
| `Identity.SlotIdentitiesDisjoint` | internal/link/identity.go:62-74 | Interface, mark and route table differ for any two different (gateway, slot) pairs, and tables stay clear of the reserved ones. |
| `Identity.GatewayIdentitiesDisjoint` | internal/link/identity.go:42-48 | nft tables and health ports of different gateways differ, and ports stay below the NodePort range. |
| `Identity.MarkFitsUpperHalf` | internal/link/identity.go:15-23 | A mark is non-zero, fits 32 bits, survives its mask and leaves kube-proxy's bits clear. |
| `Identity.InterfaceNameFits` | internal/link/identity.go:8-10 | Interface names have at most 12 characters. |
| `Identity.InheritedSlots` | internal/link/identity.go:80-93 | Sorted; exactly the slots of this gateway whose interface is among the links, whatever other links there are; no repeats when link names are unique. |
| `LinkIds.StatusIdsStayDistinct` | internal/controller/link.go:1001-1044 | Over every run of creations, deletions, restores, user annotations and passes with failures, status ids are pairwise distinct and in range. |
| `LinkIds.StatusIdNeverReassigned` | internal/controller/link.go:1001-1044 | A status id stays until the Gateway is deleted or restored without status. |
| `LinkIds.ClaimsStayDisjoint` | internal/controller/link.go:1070-1103 | If only the operator writes annotations, passes see the current copy and backups come back while their ids are free, status and annotation claims of different Gateways never meet. |
| `LinkIds.RegainsAnnotatedID` | internal/controller/link.go:1048-1066 | A Gateway without status regains its annotated id exactly when no other Gateway claims it. |
| `LinkIds.RestoreRegainsID` | internal/controller/link.go:1048-1066 | In such runs every Gateway without status, restored in place or re-created from a backup, regains its annotated id. |
| `LinkIds.RestoreKeepsClaimsIff` | internal/controller/link.go:1119-1137 | The condition on a backup is exact: re-creating it keeps claims disjoint if and only if nobody else claims its id. |
| `LinkIds.TakenIdIsLost` | internal/controller/link.go:1048-1066 | A run outside that condition: an id freed by a deletion is taken by another Gateway, and the first owner's backup does not get it back. |
| `LinkIds.NodeStateDisjoint` | internal/controller/link.go:1119-1149 | Hence all node names, marks, tables and ports of two allocated Gateways differ at any slots, in every run. |
| `LinkIds.ApiServer.EnsureLinkID` | internal/controller/link.go:1001-1044 | Writes status and annotation as the specification says, including the failing writes. |
| `LinkIds.ApiServer.AdoptableLinkID` | internal/controller/link.go:1048-1066 | The annotated id, when it is valid and nobody else holds it. |
| `LinkIds.LinkIDHolders` | internal/controller/link.go:1119-1137 | Maps exactly the ids other Gateways claim in status or annotation. |
| `LinkIds.LowestFreeLinkID` | internal/controller/link.go:1141-1149 | The lowest id no other Gateway claims, or none when all 250 are claimed. |
| `Node.ApplyStaysAnchored` | internal/link/apply.go:112-170 | At every step of a slot's apply plan, failed or not, every slot's rule and routes have their interface, and every other slot of every gateway is untouched. |
| `Node.CompletedApplyPrograms` | internal/link/apply.go:155-170 | A plan whose steps all went well leaves interface, rule, default route and exactly the given throw routes, whatever it started from. |
| `Node.TeardownStaysAnchored` | internal/link/teardown.go:41-49 | While teardown steps succeed or find the object absent, and at the first that does not, no rule or route is left without its interface, and other slots are untouched. |
| `Node.SweepStartsAlike` | internal/link/teardown.go:56-68 | A sweep that goes on past failures passes through those same states up to its first refusal. |
| `Node.TeardownRemoves` | internal/link/teardown.go:41-49 | A teardown without error leaves nothing of the slot; one with errors adds nothing. |
| `Node.SweepAnchoredIff` | internal/link/teardown.go:41-68 | Exactly when a sweep past refused steps leaves a slot without anchor: its interface went while the rule or a throw route could not be removed. |
| `Node.RefusedRuleDeleteOrphans` | internal/link/teardown.go:41-68 | A concrete such case: a refused rule deletion followed by a successful interface deletion. |
| `Node.InterfacesTellLeftovers` | internal/link/link.go:55-68 | In an anchored state the gateway's interfaces tell exactly which of its slots left anything on the node. |
| `DataPlane.Plane.Hold` | internal/link/link.go:55-68 | From an anchored node, the slots held at start are exactly those with anything on the node, none admitted. |
| `DataPlane.Plane.ApplyPass` | internal/link/dataplane.go:60-80 | Keeps held slots covering the node and admitted slots served under a loaded ruleset, with partial applies, failed rulesets and failed teardowns; the remembered forwards and address follow a completed apply and stay otherwise; other gateways are untouched. |
| `DataPlane.Plane.StandbyPass` | internal/link/dataplane.go:84-95 | Changes nothing while leading or without another holder; otherwise sweeps every held slot, keeping the cover. |
| `DataPlane.Plane.StepDown` | internal/link/dataplane.go:98-112 | Keeps the cover; without an error no slot object and no table of the gateway is left on the node and nothing is held. |
| `DataPlane.Plane.TeardownSlots` | internal/link/dataplane.go:115-135 | Held slots outside the kept ones leave node and books, in slot order; failed ones stay held, not admitted, and are reported. |
| `DataPlane.Plane.ApplyConfig` | internal/link/apply.go:328-397 | Every slot attempted is reported in config order, an applied one is programmed under a loaded ruleset, and an early failure has changed no slot. |
| `DataPlane.Plane.Unapplied` | internal/link/apply.go:412-420 | After a failed ruleset no slot counts as applied. |
| `DataPlane.Record` | internal/link/dataplane.go:138-142 | Every attempted slot is held with its outcome; other entries stay. |
| `Conntrack.FlushTuples` | internal/link/apply.go:233-253 | Exactly the distinct tuples of the previous set absent from the current one, in the previous set's order. |
| `Conntrack.HairpinPorts` | internal/link/apply.go:257-283 | Exactly the current ports not already installed at this address; none without an address. |
| `Conntrack.DroppedTuplesAreFlushed` | internal/link/apply.go:365-408 | Over any life in which an apply that reaches its ruleset completes: every tuple ever loaded is in the ruleset on the node, or was flushed after the ruleset that dropped it, or a step-down deleted the ruleset and the tuple is still remembered. |
| `Conntrack.NextApplySettles` | internal/link/apply.go:233-253 | Whatever happened before, also a step-down, the next completed apply carries a tuple once loaded or it has been flushed after being dropped. |
| `Conntrack.AllSettledIff` | internal/link/dataplane.go:60-112 | In such a life every tuple ever loaded is in the ruleset on the node or was flushed after being dropped if and only if the last ruleset was not deleted by a step-down or was empty. |
| `Conntrack.StepDownLeavesFlows` | internal/link/dataplane.go:98-112 | A run outside that condition: after a step-down a tuple is neither on the node nor flushed. |
| `Conntrack.HairpinCoversNewPorts` | internal/link/dataplane.go:49-80 | An apply's hairpin deletions are exactly for the ports not yet installed at that address in this term. |
| `Conntrack.NewTermCoversAllPorts` | internal/link/dataplane.go:49-56 | The first apply of a new term deletes the hairpin flows of every open port at its address. |
| `Conntrack.MemoryIsProgrammed` | internal/link/dataplane.go:22-27 | The remembered forwards are those of the last ruleset loaded, also after a step-down. |
| `Election.NoApplyAfterFence` | internal/link/election.go:303-369 | In every interleaving, no apply of a cycle runs after that cycle's fence or hand-over began. |
| `Election.EndedEarlyNeverApplies` | internal/link/election.go:129-137 | A cycle ended before its reload loop registered never applies. |
| `Election.ReleasedBehindTheFence` | internal/link/election.go:421-462 | Unless an endCycle call gave up on that very cycle with its acquisition write in flight or its loop unregistered, an acquired cycle's elector context is cancelled only when its loop has exited and its plane is fenced, with the fence over, or handed to the kept-plane flag. |
| `Election.UnregisteredTimeoutBreaksOrder` | internal/link/election.go:431-449 | Wherever the wait for a loop expires before it registered, the call's next step cancels the elector of an acquired cycle whose loop has not exited. |
| `Election.UndrainedTimeoutBreaksOrder` | internal/link/election.go:421-449 | Wherever the drain expires with a write in flight, the call finds nothing acquired; if the write then succeeds, it cancels the elector of an acquired cycle whose loop has not exited. |
| `Election.SingleOwner` | internal/link/election.go:454-533 | At every reachable state at most one of the pending flag, the current unfenced cycle and a running fence owns the plane, no earlier cycle does, and a live plane has an owner unless the last fence came back incomplete. |
| `Election.OwnerlessIff` | internal/link/election.go:466-533 | In every run a live plane is without owner if and only if an earlier step ended a fence of a live plane incompletely and no cycle claimed the plane since. |
| `Election.FailedExitFenceOrphans` | internal/link/election.go:466-473 | It happens: a run that leaves a plane on the node, owned by nobody, after runElection returned. |
| `Election.SettledExactlyOnce` | internal/link/election.go:356-368 | Every led cycle ends by exactly one teardown or one hand-over. |
| `Election.NoKeptFenceDuringTerm` | internal/link/election.go:477-533 | After a claim no kept-plane fence begins before the claiming cycle was fenced or handed over. |
| `Election.ReturnedOwnsNothing` | internal/link/election.go:249-252 | When runElection has returned nobody owns a plane and no fence is running; a plane is left behind only where the last fence came back incomplete. |
| `Election.RunKeepsInv` | internal/link/election.go:249-533 | The invariant of all goroutines together holds in every reachable state. |
| `AcquisitionLock.UnacquiredIsFinal` | internal/link/election.go:169-245 | Once left and drained without having acquired, no running or later write makes the cycle acquired. |
| `AcquisitionLock.RunKeepsInv` | internal/link/election.go:193-204 | The in-flight count is exactly the number of counted writes, for any number of concurrent writers. |
| `AcquisitionLock.DrainedIsSafe` | internal/link/election.go:208-226 | A drained, unacquired cycle has no such write. |
| `AcquisitionLock.CanAcquireIff` | internal/link/election.go:193-245 | The exact condition: a leaving, unacquired cycle can still become acquired if and only if a counted write is in flight or a write for this identity is back with success and not yet observed. |
| `ElectionChoice.EntryDecision` | internal/link/election.go:649-677 | Admits exactly a fully eligible live node, or without such a peer the best node once both clocks have elapsed. |
| `ElectionChoice.BestNode` | internal/link/election.go:657-668 | The loop finds the node with the highest score and then the lowest name, in any map order. |
| `ElectionChoice.BestIsUnique` | internal/link/election.go:657-668 | There is only one such node. |
| `ElectionChoice.FitNodesExcludeOthers` | internal/link/election.go:649-655 | While a fully eligible node is live, exactly such nodes are admitted, whatever the clocks. |
| `ElectionChoice.ExactlyOneAdmitted` | internal/link/election.go:649-677 | Otherwise, with all clocks elapsed, exactly one live node is admitted. |
| `ElectionChoice.EntryStillEligible` | internal/link/election.go:627-636 | A contender stays exactly while fully eligible, or best without a fully eligible peer and without another holder. |
| `ElectionChoice.HandoffDecision` | internal/link/election.go:734-752 | Hands over exactly when not fully eligible and either useless beside a useful peer, or beside a fully eligible peer for the hold. |
| `ElectionChoice.NoPingPong` | internal/link/election.go:649-752 | On one view no node is both admitted and made to hand over, whatever the clocks. |
| `ElectionChoice.HandOverIsStable` | internal/link/election.go:649-752 | Whoever is admitted where the holder hands over is another node and does not hand over on that view. |
| `ElectionChoice.KeepingIsAHandOver` | internal/link/election.go:842-847 | A plane is kept only by a cycle nobody ended or forced, which is the hand-over step of the protocol. |
| `Endpoints.Watcher.SetForwards` | internal/link/endpoints.go:126-174 | Informers exist for exactly the keys of the forwards; wanted ones keep running, new ones start, others stop. |
| `Endpoints.TakeSnapshot` | internal/link/endpoints.go:253-286 | Every forward lands on exactly one list, each list in forward order, with the least target or the right reason. |
| `Endpoints.NothingLost` | internal/link/endpoints.go:253-286 | The three lists together are as long as the forwards. |
| `Endpoints.ScoreAgreesWithSnapshot` | internal/link/endpoints.go:337-348 | With all watches synced a node's score is full exactly when its snapshot has nothing unsatisfied. |
| `Endpoints.FitMeansSatisfied` | internal/link/endpoints.go:299-322 | So a live node is fully eligible in the election exactly when an apply there would satisfy every forward. |
| `Endpoints.Evaluate` | internal/link/endpoints.go:299-322 | Scores of every live node and the own one, and the pending names in forward order. |
| `Endpoints.SelectEndpoint` | internal/link/endpoints.go:411-446 | The least (address, port) among the candidates, or none without candidates. |
| `Endpoints.SelectionIgnoresOrder` | internal/link/endpoints.go:409-411 | Caches offering the same candidates select the same target whatever their order. |
| `Endpoints.FindPort` | internal/link/endpoints.go:450-465 | The number of the first port of that name, if it has one. |
| `Reload.ReloadLoop.Pass` | internal/link/reconcile.go:38-108 | One pass of the closure leaves memory and rules as the specification says, also where the ruleset loads but a slot is down. |
| `Reload.RulesOutlastPending` | internal/link/reconcile.go:51-72 | Over any term, from any point at which the loop knows the node: a configured forward never loses its rule while pending, as long as no pass in between that did not complete left a rule the loop does not remember. |
| `Reload.WhenItKnows` | internal/link/reconcile.go:55-106 | Such points are the start of a term, exactly when it took the plane over or found no rules, and the end of every apply that completes, also over rules left behind by an incomplete fence. |
| `Reload.CompletingTermFits` | internal/link/reconcile.go:98-106 | Without a plane taken over and from a node without rules, where applies complete or stop before their ruleset, no pass leaves an unremembered rule. |
| `Reload.KeptTermFits` | internal/link/reconcile.go:55-61 | For a plane taken over, where applies complete or stop before their ruleset: no pass leaves an unremembered rule if and only if the first readable config does not, by completing or by listing every forward in place. |
| `Reload.LossPossibleIff` | internal/link/reconcile.go:51-72 | The condition is exact in every state, also before the first readable config: some next pass can drop a pending forward's rule if and only if a rule on the node is not remembered or, with nothing remembered yet, rules are there and no plane was taken over. |
| `Reload.SnapshotGives` | internal/link/endpoints.go:253-286 | The snapshot of forwards with distinct names is what a pass works from. |
| `Drift.NoLostDrift` | internal/controller/gateway_controller.go:826-850 | In every interleaving of edits, deliveries, passes, failures and restarts, an object that differs from a desired form under that form's hash has an undelivered event, a dirty or unseen flag, or a forced pass due on it. |
| `Drift.ForcedPassRepairs` | internal/controller/link.go:940-997 | A forced pass that completes leaves every object as desired, but for what was changed again meanwhile. |
| `Drift.RunKeepsInv` | internal/controller/responder.go:307-316 | The invariant behind both, over every run. |
| `Drift.DirtyTracker.Mark` | internal/controller/gateway_controller.go:120-127 | Only this key becomes dirty. |
| `Drift.DirtyTracker.Take` | internal/controller/gateway_controller.go:131-140 | Reports dirty or unseen, and leaves only this key clean. |
| `Drift.DirtyTracker.Forget` | internal/controller/gateway_controller.go:143-147 | Only this key becomes unseen. |

## Left out

- Election.ReleasedBehindTheFence: says nothing about a cycle on which endCycle gave up with the acquisition write in flight or the loop unregistered, because the code gives the order up there on purpose.
- MemberRuns.SlotQuarantine: counts passes over usable snapshots; one cut short by an error publishes nothing, so only in runs whose passes complete are both of them published results.
- MemberResults.SlotsInNameOrder: assumes no name collision and no failing call; a colliding name gets no record and leaves its slot to the next.
- Conntrack.DroppedTuplesAreFlushed: leaves out lives in which an apply fails after its ruleset, since the remembered forwards advance only on success.
- Drift.NoLostDrift: takes the component's set of objects as fixed; deleting objects a changed spec no longer wants is not modelled.
- DataPlane.Plane.ApplyPass: Local mode only; Cluster mode's single interface has no slots to keep.
- Mutual exclusion of data planes across nodes: a holder that loses its Lease unexplained keeps its plane, so it is no goal of the code.
- Wall-clock budgets, polling intervals and the retry bounds of reads.
- The single-instance branch of member reconciliation, which has one slot and no debounce.
- nftables rulesets, WireGuard configuration text, command lines and their error wordings.
- Builders of Kubernetes objects, DNS endpoints, the health responder, events and warning suppression, credentials caching.
- Liveness of link pods and the wiring of informers: the live nodes and cache contents are inputs.
- Admission rules, generated code, command entry points and tooling.
