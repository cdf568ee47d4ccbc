# Lattice: a verified model of the control plane and the relay

Lattice builds WireGuard networks from Kubernetes objects. A controller gives every network a subnet of
one pool and every peer an address of its network, turns label-selector policies into tunnel lists and
firewall rules, and joins networks of different namespaces by peerings. Agents that cannot reach each
other directly talk through a relay with a small framed protocol.

The model covers the parts of that where several pieces of code have to fit together:

* **Allocation.** `Ipv4`, `Ipam`: the subnet scan and the address claim in 32-bit arithmetic, as loops
  over a store that other reconcilers change in between.
* **The control plane as a state machine.** `Peers`, `ControlPlane`: network and peer reconciles
  interleaved one API call at a time, with lists and reads from caches, swallowed conflicts, refused
  patches and reconciles cut off anywhere. `ConflictFree`, `StatusShape`, `LabelRuns`, `OwnLabels` and
  `Ownership` prove what every reachable state of every run satisfies. `Runs` builds runs event by event,
  and with it `OwnershipExact`, `TwoLabels` and `StuckRun` show where these results end.
  `PeerReconciler` runs the handlers as methods and proves what repeated reconciles converge to, and
  `Interleaved` carries that over to every interleaved run.
* **Policies.** `Policy` (the resolver), `RuleCompiler` (buildPolicy and the decisions), `Firewall`
  (emission, the provisioner's chains, the verdict on a packet), `Agreement` (tunnels and rules speak of
  the same peers), `Store` (the view of one peer, and the agreement over it), `PacketPath` (from the stored
  policies to the verdict on a packet).
* **Peerings.** `Peering` (create and delete), `PeeringUndo` (delete undoes create), `PeeringNames` (peerings
  beside each other), `PeeringReach` (both sides route each other's CIDR, down to the allowed_ip lines of
  `AllowedIPs`), `PeeringPackets` (which packets a peering lets through).
* **The relay.** `Lrp` (header), `LrpServer` (session loop), `LrpClient` (queue, buffered writer,
  connection), `Sessions` (the table against its history), `RelayPath` (the whole way).
* **The rest.** `Mux` (the socket reader with its reused buffer), `MuxClose` (how it is closed), `Tokens`
  (enrollment tokens), `TokenRuns` (their reconciles and enrollments over whole runs), `KeyNames` (label and
  annotation keys), `Prelude`.

The caches, clocks, failing calls and the choices of a map walk are parameters or nondeterministic
results. The SHA-256 digest in key names is an arbitrary function to eight characters, and "is this a
STUN message" is an arbitrary set of byte strings.

## What turned out false, and when it holds

* The subnet scan ends for every occupancy exactly when the pool is not /0 and the mask is between 1 and
  32 modulo 2^32 (`Ipam.ScanLeavesPool`). For /31 and /32 networks the host loop leaves its subnet
  exactly in the three cases of `Ipam.BoundsWrap` (`Ipam.CandidatesAreHosts`).
* A peer converges exactly when it does not start out in its target network without being Ready
  (`PeerReconciler.ConvergesUnlessStuck`); changing the network and changing it back gets it there,
  in a run from the empty store in which nothing goes wrong, and it never settles again
  (`StuckRun.StuckReached`).
* A peer owns at most one endpoint in every run whose lists do not hide the peer's own endpoint from it
  (`Ownership.OneEndpointPerPeer`). A list leads to a second one exactly when it hides the first and a host
  is free (`OwnershipExact.SecondEndpointIff`).
* Two peers show one address only in runs that break one of six clauses (`Ownership.Clause`,
  `Ownership.AddressesNotShared`). None of the six can be dropped: for each there is a run from the empty
  store that keeps the other five and ends with two peers on one address (`OwnershipExact.ClauseIsNeeded`,
  as one equivalence `OwnershipExact.NeverSharedIff`).
* A peer keeps to one network label over a run exactly as long as every label patch fits: its copy shows
  every other network label that is stored, or it has the label already and the stored peer has lost it
  (`LabelRuns.OneLabelIffFits`). A run from the empty store ends with two labels
  (`TwoLabels.TwoLabelsReached`).
* The emission order of the rules matters for a packet exactly when two covering decisions disagree
  (`Firewall.OrderMattersIffConflict`). The order of the rules themselves does not matter for a flow exactly
  when one action is spelled ALLOW, or all agree on whether they allow (`Firewall.OrderIrrelevantIff`); with
  "allow" and DENY it does (`Firewall.LowerCaseAllowDependsOnOrder`).
* Deleting a peering gives the store back exactly when it finds every gateway that some reconcile has found, and
  none that had the route before (`PeeringUndo.DeletionRestoresIff`). It does so whatever it finds exactly when
  the gateways found are the only ones it can find (`PeeringUndo.RestoredIffSole`). Within one namespace that takes one gateway
  that is the only one of both networks: a first gateway outside the second network keeps its route
  (`PeeringUndo.SameNamespaceKeepsRoute`), the second network gets no tunnel to the shadow
  (`PeeringReach.SameNamespaceNoTunnel`), and the first network gets no packet through by the peering
  (`PeeringPackets.SameNamespaceOneNetwork`).
* Keys are not unique in the name, although the comment on safeKeyName says so
  (`KeyNames.ShortenedNameCollides`). Two names share a key exactly when they are equal, both are long with
  the same beginning and digest, or one is the other's shortened form (`KeyNames.SameKeyIff`).
* The payload of a frame that is neither Forward nor Probe is read as the next frames. It changes nothing,
  whatever follows, exactly when it is a sequence of whole headers of such commands
  (`LrpServer.PayloadIgnoredIffHarmless`).
* A client is not always reached on its latest open connection: the end of any connection with the same low
  32 bits of the id unregisters it, so that a reconnected client is lost when its first connection ends
  (`RelayPath.ReconnectIsLost`), and a client with an id 2^32 larger takes over
  (`RelayPath.CollidingIdsShareSession`). When it is reached is `RelayPath.ReachesLatestIff`.
* A token's count is not the number of its bound peers once somebody enrolls: it is the bound peers and those
  enrollments that no bind has overwritten (`TokenRuns.CountIs`), and all enrollments exactly as long as no bind
  overwrites one that is newer than its copy (`TokenRuns.CountsEverythingIff`).
* The count can go down. Over any run it never does exactly when no reconcile binds fewer peers and enrollments
  than it takes away, counted with repetition (`TokenRuns.NeverDecreasesIff`; for Specs without repetition in
  sets, `TokenRuns.DistinctNeverDecreasesIff`). That is not the same as losing a bound peer, whose exact condition
  is `TokenRuns.PeerIsLostIff`: with a repeated entry the count goes down and no peer is lost
  (`TokenRuns.RepeatedPeerDecreases`), and a peer can be lost with the count unchanged
  (`TokenRuns.LostPeerKeepsCount`).
* Closing the mux does not end its reader, and waits for it: Close can return before anybody reads an injected
  packet exactly when the reader is not waiting for room in the inject queue (`MuxClose.CanCloseIff`).

The policy type's comment names DENY as the default action; the code compiles an empty action to ALLOW,
and the model follows the code.

## Model

| member | source | states |
|---|---|---|
| `Ipv4.BlockIsInterval` | internal/agent/ipam/ipam.go:87-94 | an address lies in a CIDR block exactly when it is between the block's first and last address |
| `Ipv4.IpToHexInjective` | internal/agent/ipam/ipam.go:221-227 | the eight hexadecimal digits of an object name determine the address |
| `Ipv4.IpToHexValue` | internal/agent/ipam/ipam.go:221-227 | the digits of an object name are lower-case hexadecimal ones, and read as a number they are the address |
| `Ipam.IpNameInjective` | internal/agent/ipam/ipam.go:155-156 | two addresses never share an endpoint name, so the name is a lock on the address |
| `Ipam.SubnetNameInjective` | internal/agent/ipam/ipam.go:51-52 | two subnets never share an allocation name |
| `Ipam.VisitedSlots` | internal/agent/ipam/ipam.go:110-114 | the scan visits the aligned subnets of the pool in order, and one step after the last it has left the pool, also when the step wraps around 2^32 |
| `Ipam.SubnetIsSlot` | internal/agent/ipam/ipam.go:110-114 | every aligned subnet inside the pool is visited |
| `Ipam.SubnetsDisjoint` | internal/agent/ipam/ipam.go:110-114 | two subnets of the pool with a common address are the same |
| `Ipam.ScanLeavesPool` | internal/agent/ipam/ipam.go:110-116 | the scan can end without a free subnet exactly when the pool is not /0 and the stride is not lost in the shift |
| `Ipam.FindFirstFree` | internal/agent/ipam/ipam.go:86-117 | returns the lowest subnet that is listed neither under its name nor under its bare digits, and fails only when all are listed; ends within 2^(m-p) steps |
| `Ipam.AllocateSubnet` | internal/agent/ipam/ipam.go:42-84 | a won subnet was the lowest one the list seen does not have, was not in the store and now is, for this network; no subnet means a list without a free one or ten lost races; an error means a failed call |
| `Ipam.HostRange` | internal/agent/ipam/ipam.go:143-150 | up to /30 the bounds do not wrap and the candidates are base+2 to broadcast-1, all inside the subnet |
| `Ipam.CandidatesAreHosts` | internal/agent/ipam/ipam.go:143-152 | for every prefix length the loop offers only hosts exactly when the bounds do not wrap |
| `Ipam.ScanListed` | internal/agent/ipam/ipam.go:131-141 | finds the first listed endpoint that names the peer, or else collects exactly the listed names |
| `Ipam.ClaimFirst` | internal/agent/ipam/ipam.go:152-185 | the claimed address is the lowest candidate neither listed nor taken when tried; failure means that every candidate was |
| `Ipam.AllocateIP` | internal/agent/ipam/ipam.go:119-188 | an invalid CIDR is refused, a listed endpoint of the peer is reused without a create, otherwise the claim of the lowest free host |
| `Ipam.ReleaseIP` | internal/agent/ipam/ipam.go:192-211 | removes exactly the endpoint named after the address; no address and a missing endpoint are no error |
| `Ipam.ApiServer.CreateEndpoint` | internal/agent/ipam/ipam.go:174-181 | a create succeeds only on a free name and then adds exactly that object |
| `KeyNames.SafeKeyName` | internal/agent/controller/utils.go:125-142 | the key starts with the prefix, and is within 63 characters exactly when the name fits or the prefix leaves room for the digest |
| `KeyNames.NetworkLabelKey` | internal/agent/controller/utils.go:146-149 | a network's label keeps the network prefix and its name part is within 63 characters |
| `KeyNames.RouteAnnotationKey` | internal/agent/controller/utils.go:152-155 | a peering's route annotation keeps the route prefix and its name part is within 63 characters |
| `KeyNames.PlainLabelKey` | internal/agent/controller/utils.go:146-149 | a network name of at most 55 characters is in its label as it is |
| `KeyNames.PlainRouteKey` | internal/agent/controller/utils.go:152-155 | a peering name of at most 49 characters is in its annotation as it is |
| `KeyNames.KeysTellApart` | internal/agent/controller/utils.go:146-155 | labels and annotations tell two names apart exactly when their shortened segments do |
| `KeyNames.ShortenedNameCollides` | internal/agent/controller/utils.go:125-142 | every name that is shortened shares its key with a name that is not |
| `KeyNames.FittingNamesDiffer` | internal/agent/controller/utils.go:128-132 | names that fit have different keys |
| `KeyNames.SameKeyIff` | internal/agent/controller/utils.go:125-142 | two names share a key exactly when they are equal, both are long with equal beginning and digest, or one fits and is the other's shortened form |
| `Peers.Labelled` | internal/agent/controller/peer_controller.go:273-295 | the peer then has exactly one network label, that of its Spec's network, with the value "true"; all its other labels keep their values, and nothing else changes |
| `Peers.Unlabelled` | internal/agent/controller/peer_controller.go:423-435 | no network label is left, all other labels keep their values, and nothing else changes |
| `Peers.MergeMeaning` | internal/agent/controller/peer_controller.go:662-696 | a merge patch changes exactly the status fields and labels in which the copy and the target differ, to the target's value, whatever is stored |
| `Peers.FreshMerge` | internal/agent/controller/peer_controller.go:645-712 | a merge patch from an up-to-date copy stores exactly what was computed |
| `ConflictFree.NewWinner` | internal/agent/controller/network_controller.go:89-108 | a network winning one more subnet keeps the invariant that every claim, published CIDR and endpoint is at home in a subnet won in its own namespace |
| `ControlPlane.ShownIff` | internal/agent/controller/network_controller.go:89-108 | a network shows a further CIDR exactly when it has won it and the status patch goes through |
| `ConflictFree.TryKeepsInv` | internal/agent/ipam/ipam.go:152-185 | a turn of the candidate loop keeps the invariant, whatever was listed |
| `ConflictFree.StepKeepsInv` | internal/agent/controller/peer_controller.go:298-473 | every step of every reconcile keeps the invariant |
| `ConflictFree.RunKeepsInv` | internal/agent/controller/peer_controller.go:87-217 | the invariant holds at every point of every run |
| `ConflictFree.ConflictFreeAllocation` | internal/agent/ipam/ipam.go:42-188 | in every run, with any stale lists and reads and any lost patches, all live endpoints of all namespaces have pairwise different addresses |
| `ConflictFree.NameTakenIffHeld` | internal/agent/ipam/ipam.go:152-185 | in every run the name of an address is taken in a namespace exactly when an endpoint there has this very address, so a free address is never refused |
| `StatusShape.PatchesShaped` | internal/agent/controller/peer_controller.go:684-712 | a join's patch sets active network and address together and a leave's clears both, over whatever is stored by then |
| `StatusShape.StepKeepsShape` | internal/agent/controller/peer_controller.go:119-473 | every step keeps the shape of every stored and pending version of a peer |
| `StatusShape.ActiveIffAllocated` | internal/agent/controller/peer_controller.go:386-452 | in every reachable state, stale reads and failures included, a peer has an active network exactly when it has an address |
| `LabelRuns.AtMostOneNetworkLabel` | internal/agent/controller/peer_controller.go:273-452 | in every run whose reconciles read the stored peer, with any lost patches and failures, every stored peer has at most one network label |
| `LabelRuns.LabelPatchIff` | internal/agent/controller/peer_controller.go:645-680 | a label patch from any copy leaves at most one network label exactly when it fits, also when the copy has the label already |
| `LabelRuns.StepIff` | internal/agent/controller/peer_controller.go:273-295 | an event leaves every peer with at most one network label exactly when it is not a label patch that does not fit |
| `LabelRuns.OneLabelIffFits` | internal/agent/controller/peer_controller.go:273-452 | in every run, whatever copies its reconciles read, all peers have at most one network label up to a point exactly when every patch up to there fits |
| `OwnLabels.StepRespects` | internal/agent/controller/peer_controller.go:273-452 | no call of any reconcile, however old its copy, changes the Spec or a label that is not a network label, or takes the finalizer or the keys away |
| `OwnLabels.OwnersPartStays` | internal/agent/controller/peer_controller.go:273-452 | between two edits of a peer, in every run, its Spec and its own labels keep their keys and values |
| `TwoLabels.TwoLabelsReached` | internal/agent/controller/peer_controller.go:273-295 | for any two networks with different labels and a pool of more than one subnet, a run from the empty store that ends with both labels on one peer |
| `Ownership.StepKeepsOne` | internal/agent/ipam/ipam.go:124-188 | every step whose list hides nothing keeps: a peer owns at most one endpoint, and none while it scans |
| `Ownership.OneEndpointPerPeer` | internal/agent/ipam/ipam.go:132-141 | in every run whose lists do not hide a peer's own endpoint a peer owns at most one, with old copies, lost patches, collected endpoints and reconciles cut off anywhere |
| `OwnershipExact.ListThenTryLeads` | internal/agent/ipam/ipam.go:124-188 | listing and then trying candidates is a path of the control plane |
| `OwnershipExact.SecondEndpointIff` | internal/agent/ipam/ipam.go:124-188 | a list leads its peer to a second endpoint exactly when it hides the first and some host is neither listed nor taken |
| `Ownership.StepKeepsHeld` | internal/agent/controller/peer_controller.go:298-473 | every step that keeps the six clauses keeps: an address a peer shows is that of an endpoint it owns, except between release and clear |
| `Ownership.AddressesNotShared` | internal/agent/controller/peer_controller.go:298-473 | in every run that keeps the six clauses two peers of a namespace that are not in the middle of leaving never show one address |
| `OwnershipExact.ClauseIsNeeded` | internal/agent/controller/peer_controller.go:298-473 | for every pool, network and three peers, and for each of the six clauses, a run from the empty store that keeps the other five and ends with two peers on one address |
| `OwnershipExact.NeverSharedIff` | internal/agent/controller/peer_controller.go:298-473 | the runs that keep a set of clauses never put two peers on one address exactly when the set has all six |
| `PeerReconciler.Reconciler.UpdateSpec` | internal/agent/controller/peer_controller.go:645-682 | nothing is written without a change, a conflict is swallowed, a written patch is copied back |
| `PeerReconciler.Reconciler.UpdateStatus` | internal/agent/controller/peer_controller.go:684-712 | the same for the status |
| `PeerReconciler.Reconciler.LeaveNetwork` | internal/agent/controller/peer_controller.go:411-473 | the stored peer after a leave, for every answer of the API |
| `PeerReconciler.Reconciler.JoinNetwork` | internal/agent/controller/peer_controller.go:298-409 | nothing happens to a peer already in its network; otherwise the stored peer after a join, for every answer of the API |
| `PeerReconciler.Reconciler.HandleInitialization` | internal/agent/controller/peer_controller.go:119-148 | keys first, then Pending |
| `PeerReconciler.Reconciler.HandlePending` | internal/agent/controller/peer_controller.go:150-184 | idle, leave or join, by Spec and active network |
| `PeerReconciler.Reconciler.Reconcile` | internal/agent/controller/peer_controller.go:70-114 | the stored peer after one reconcile, the function the convergence results are about |
| `PeerReconciler.FailsIff` | internal/agent/controller/peer_controller.go:298-473 | a reconcile marks a peer as failed exactly when it is pending, the status patch goes through, and a leave cannot remove the labels, or for a join the network is missing, its label is refused, or no address is free |
| `PeerReconciler.OneRound` | internal/agent/controller/peer_controller.go:87-217 | an undisturbed reconcile of a peer neither settled nor stuck strictly decreases the rounds left and does not get it stuck |
| `PeerReconciler.ConvergesUnlessStuck` | internal/agent/controller/peer_controller.go:87-473 | with a fixed Spec and no failures a peer is Ready in its network after seven reconciles and from then on, exactly when it was not stuck; a stuck peer never is |
| `StuckRun.StuckReached` | internal/agent/controller/peer_controller.go:87-310 | a run from the empty store in which nothing goes wrong, with a network changed and changed back between reconciles, ends with the peer stuck, and it settles in no continuation without an edit or a failure |
| `Interleaved.OwnEvent` | internal/agent/controller/peer_controller.go:119-473 | every API call of a reconcile that began with the stored peer brings it on, or ends it as one round of the handlers |
| `Interleaved.StartAgrees` | internal/agent/controller/peer_controller.go:70-184 | what an interleaved reconcile first writes is what the handlers write with the same answer to their reads, and they write nothing when it ends at once |
| `Interleaved.OtherEvents` | internal/agent/controller/peer_controller.go:70-114 | no event of another peer or network touches the peer or its reconcile |
| `Interleaved.ReconcilesAreRounds` | internal/agent/controller/peer_controller.go:70-473 | in every interleaving, while nobody edits the peer, none of its reconciles is cut off and each starts from the stored peer, an idle peer is what as many rounds of the handlers made of it |
| `Interleaved.SettlesInEveryInterleaving` | internal/agent/controller/peer_controller.go:70-473 | when moreover no call of the peer fails, a stuck peer never settles and any other is settled whenever it is idle after seven reconciles or more, whatever all other peers do |
| `Policy.ResolveSelection` | internal/agent/controller/peer_resolver.go:106-116 | exactly the members the selection's selector matches; none without a selector |
| `Policy.SelectorLaws` | internal/agent/controller/peer_resolver.go:95-116 | the four kinds of requirements are two opposite pairs, a matched label is a requirement with one value, requirements add up, and the empty selector matches everybody |
| `Policy.AddSpecs` | internal/agent/controller/peer_resolver.go:55-80 | adds exactly the members the rules of one direction reach, except the current peer |
| `Policy.GetComputedPeers` | internal/agent/controller/peer_resolver.go:46-93 | exactly the members that some applicable policy connects with the current peer, each under its name |
| `RuleCompiler.GetPeerNames` | internal/agent/controller/detector.go:445-483 | exactly the names of the network's peers that some selection matches |
| `RuleCompiler.ListedIff` | internal/agent/controller/detector.go:445-483 | without a network the selected peers of the namespace are listed, with one those that have its label with the value "true" |
| `RuleCompiler.ExtractedCIDR` | internal/agent/controller/detector.go:486-494 | the extracted blocks are the non-empty IPBlock entries |
| `RuleCompiler.BuildPolicy` | internal/agent/controller/detector.go:368-442 | one compiled rule for every rule and port of the policy, in order, with its names, blocks and action; an empty action is compiled to ALLOW |
| `RuleCompiler.ExpandedConcat` | internal/agent/controller/detector.go:383-435 | the compiled rules of a list are those of its parts, one after the other |
| `RuleCompiler.ExpandedOne` | internal/agent/controller/detector.go:383-435 | one rule is compiled once for each of its ports in order, or once for port 0 when it has none |
| `RuleCompiler.ExpandedCovers` | internal/agent/controller/detector.go:383-435 | every rule of the policy is compiled, and every compiled rule comes from one |
| `RuleCompiler.AddressOf` | internal/agent/controller/policy_evaluator.go:53-62 | a name resolves to the address of a member of that name, if one has an address |
| `RuleCompiler.ResolveRulePeers` | internal/agent/controller/policy_evaluator.go:143-161 | exactly the addresses of the named peers except the current one, and the blocks that are not blank |
| `RuleCompiler.EvaluateDecisions` | internal/agent/controller/policy_evaluator.go:64-98 | the decision maps of both directions are the fold of all contributions of all rules |
| `RuleCompiler.DecisionMeaning` | internal/agent/controller/policy_evaluator.go:72-98 | a flow is decided exactly when a rule contributes to it, with a contributed action, and with ALLOW if one contributes ALLOW |
| `RuleCompiler.ContributedBy` | internal/agent/controller/policy_evaluator.go:72-98 | a contribution comes from exactly the rules that resolve to its peer, with that port, protocol and action |
| `RuleCompiler.OrderIrrelevant` | internal/agent/controller/policy_evaluator.go:67-98 | with actions ALLOW and DENY the decisions depend only on which contributions there are |
| `RuleCompiler.PolicyOrderIrrelevant` | internal/agent/controller/policy_evaluator.go:67-98 | permuting policies, or rules within them, leaves both decision maps unchanged |
| `RuleCompiler.PermutedPoliciesSameRules` | internal/agent/controller/policy_evaluator.go:67-98 | a permutation of the policies has the same rules in both directions |
| `Firewall.OrderIrrelevantIff` | internal/agent/controller/policy_evaluator.go:72-133 | for any actions, every order of the contributions emits the same for a flow exactly when one is spelled ALLOW or all agree on whether they allow |
| `Firewall.LowerCaseAllowDependsOnOrder` | internal/agent/controller/policy_evaluator.go:72-133 | "allow" and DENY for one flow emit different rules in different orders |
| `Firewall.Emit` | internal/agent/controller/policy_evaluator.go:100-133 | each decided flow once, in some order, then the default deny |
| `Firewall.Evaluate` | internal/agent/controller/policy_evaluator.go:46-140 | both directions decided and emitted |
| `Firewall.AcceptIffContributed` | internal/agent/controller/policy_evaluator.go:100-169 | with actions ALLOW and DENY a flow is emitted as ACCEPT exactly when some contributing rule is ALLOW |
| `Firewall.Chains.Provision` | internal/agent/provision/provision_linux.go:85-139 | whatever the chains held, they become established, the rules in order, drop |
| `Firewall.AllowSpellings` | internal/agent/controller/policy_evaluator.go:163-169 | an action allows exactly when it is "allow" in small letters; the empty one and DENY do not |
| `Firewall.EstablishedAccepted` | internal/agent/provision/provision_linux.go:85-139 | whatever the rules, traffic of an established connection gets through |
| `Firewall.OneRuleChain` | internal/agent/provision/provision_linux.go:174-186 | one rule for one address lets a new connection through exactly when it comes from there, has the rule's protocol and port (any when the rule lacks one of them), and the rule accepts |
| `Firewall.RuleForEach` | internal/agent/provision/provision_linux.go:111-139 | a rule for several addresses has the entry of each, in order |
| `Firewall.ChainVerdict` | internal/agent/provision/provision_linux.go:111-186 | the chain gives a new connection the verdict of the first emitted flow that covers it |
| `Firewall.AcceptedNeedsAllow` | internal/agent/provision/provision_linux.go:111-186 | for every emission order a new connection is accepted only if some allowing rule covers it |
| `Firewall.AcceptedIffAllowed` | internal/agent/provision/provision_linux.go:111-186 | where covering decisions do not disagree it is accepted exactly then |
| `Firewall.OrderMattersIffConflict` | internal/agent/controller/policy_evaluator.go:100-133 | all emission orders give a packet the same verdict exactly when no two covering decisions disagree |
| `Agreement.NamedIffSelected` | internal/agent/controller/policy_evaluator.go:143-161 | a compiled rule's named addresses are those of the other members its selections match |
| `Agreement.TunnelsMatchRules` | internal/agent/controller/peer_resolver.go:46-116 | over one view of the store the addresses the compiled rules have from peers are exactly those of the computed peers, those they have from blocks are exactly the policies' own, and the decisions are about these and no others |
| `Store.TransferToPeer` | internal/agent/controller/utils.go:181-230 | AllowedIPs joins the own address, the shadow's CIDR and all non-empty peering routes, in whatever order the annotations are walked |
| `Store.LinesExactly` | internal/agent/controller/utils.go:181-230 | with plain parts the allowed_ip lines of a configured peer are those of its address with /32, its shadow CIDR and its peering routes, and no others |
| `Store.SnapshotConsistent` | internal/agent/controller/peer_controller.go:909-994 | the view of a peer taken from one state of the store is consistent, and holds only policies that apply to it |
| `Store.ConfigurationAgrees` | internal/agent/controller/detector.go:297-348 | for every peer and every state of the store, the addresses its rules have from peers are those of its tunnels, and those from blocks are the policies' |
| `PacketPath.ContributedIffSaid` | internal/agent/controller/detector.go:368-442 | what reaches the decisions is exactly what the policies say: each action, for each port, of each address a rule selects or lists |
| `PacketPath.PacketNeedsPolicy` | internal/agent/provision/provision_linux.go:111-186 | for every peer, state of the store, direction and emission order, a new connection gets through only if a stored policy that applies to the peer allows it |
| `PacketPath.PacketIffPolicy` | internal/agent/provision/provision_linux.go:111-186 | with actions that are empty, ALLOW or DENY, and where covering decisions do not disagree, it gets through exactly when a stored policy that applies and whose action is empty or ALLOW speaks of it |
| `AllowedIPs.SplitJoined` | internal/agent/infra/device_conf.go:121-126 | splitting the joined string gives back every part without a comma, whatever the others are |
| `AllowedIPs.SplitIsInverse` | internal/agent/infra/device_conf.go:121-126 | splitting gives back a joined list of parts without commas, all of them in order |
| `AllowedIPs.JoinIsInverse` | internal/agent/infra/device_conf.go:121-126 | joining what any string is split into gives the string back, and the pieces have no commas |
| `AllowedIPs.Trimmed` | internal/agent/infra/device_conf.go:121-126 | a piece is trimmed to the part between its first and last character that is no white space |
| `AllowedIPs.LineIffPiece` | internal/agent/infra/device_conf.go:121-126 | the lines are exactly those of the pieces that are not blank, trimmed |
| `AllowedIPs.LinesConcat` | internal/agent/infra/device_conf.go:121-126 | the lines of a list are those of its parts, one after the other |
| `AllowedIPs.AllowedIpLines` | internal/agent/infra/device_conf.go:121-126 | one line for each piece that is not blank, trimmed, in order |
| `AllowedIPs.PartGetsLine` | internal/agent/infra/device_conf.go:121-126 | a CIDR among the joined parts becomes an allowed_ip line of its own |
| `Peering.Reconciler.FindGateway` | internal/agent/controller/peering_controller.go:201-213 | a peer with the gateway label and the network's label, or none exactly when there is none |
| `Peering.Reconciler.EnsureAnnotation` | internal/agent/controller/peering_controller.go:216-227 | no other object, peer, field or annotation changes; afterwards the annotation has the value exactly when the copy read before did not show it or the stored peer has it, and nothing changes when the copy shows it |
| `Peering.Reconciler.RemoveAnnotation` | internal/agent/controller/peering_controller.go:230-237 | the store without that annotation on the peer |
| `Peering.Reconciler.EnsureShadowPeer` | internal/agent/controller/peering_controller.go:241-309 | the store with the shadow, created or brought up to date |
| `Peering.Reconciler.ReconcileNormal` | internal/agent/controller/peering_controller.go:90-150 | fails exactly when a network is missing, not ready or without a CIDR, or has no gateway, and then the store is unchanged; otherwise the store has both routes, shadows and policies |
| `Peering.Reconciler.ReconcileDelete` | internal/agent/controller/peering_controller.go:154-183 | the store without the routes of the gateways it finds and without the shadows and policies of both namespaces |
| `PeeringUndo.CreatedAt` | internal/agent/controller/peering_controller.go:120-135 | creation changes only the gateways' annotation of this peering and the two shadows |
| `PeeringUndo.RepeatsUndone` | internal/agent/controller/peering_controller.go:120-183 | a deletion that finds all gateways any of the reconciles found does after them what it does before them |
| `PeeringUndo.DeletionRestoresIff` | internal/agent/controller/peering_controller.go:120-183 | after any reconciles, each with the gateways it found, a deletion gives the original store back, other peerings' objects included, exactly when it finds all of those gateways and no peer that had the route before |
| `PeeringUndo.SoleGatewaysRestored` | internal/agent/controller/peering_controller.go:154-213 | with gateways that are the only ones the deletion can find, whatever it finds, the original store is back |
| `PeeringUndo.RestoredIffSole` | internal/agent/controller/peering_controller.go:120-213 | after one or more reconciles every deletion gives the original store back exactly when each pair of gateways found is the only one the deletion can find, in one namespace or two |
| `PeeringUndo.WasGateway` | internal/agent/controller/peering_controller.go:201-213 | reconciles make no peer a gateway: whatever one of them finds was a gateway before the first |
| `PeeringUndo.SameNamespaceKeepsRoute` | internal/agent/controller/peering_controller.go:162-174 | within one namespace the first network's gateway keeps its route |
| `PeeringReach.ShadowIsSet` | internal/agent/controller/peering_controller.go:241-309 | each side's shadow has the other gateway's address and keys, the local network's label and the remote CIDR |
| `PeeringReach.PeersRouteRemote` | internal/agent/controller/peering_controller.go:316-384 | every other peer of the network tunnels to the gateway, with the remote CIDR as an allowed_ip line |
| `PeeringReach.GatewayRoutesRemote` | internal/agent/controller/peering_controller.go:241-384 | the gateway tunnels to the shadow, with the remote CIDR as an allowed_ip line |
| `PeeringReach.PeeringRoutesBothWays` | internal/agent/controller/peering_controller.go:120-149 | right after a peering between two namespaces is established, both hold on both sides, for every peer and every view |
| `PeeringReach.SameNamespaceNoTunnel` | internal/agent/controller/peering_controller.go:128-135 | within one namespace no peer of the second network sees the shadow |
| `PeeringNames.NamesDiffer` | internal/agent/controller/peering_controller.go:457-468 | peerings of different names have different shadows and policies |
| `PeeringNames.PolicyKindsDiffer` | internal/agent/controller/peering_controller.go:462-468 | an access policy and a shadow policy never share a name, of whatever peerings |
| `PeeringNames.PoliciesStay` | internal/agent/controller/peering_controller.go:154-183 | creating and deleting a peering leave every policy of another one as it is |
| `PeeringNames.OthersStayWhenCreated` | internal/agent/controller/peering_controller.go:90-150 | creating a peering adds no shadow of another, and changes no peer but its own shadows in anything but its own route |
| `PeeringNames.OthersStayWhenDeleted` | internal/agent/controller/peering_controller.go:154-183 | nor does deleting it |
| `PeeringNames.RoutesDiffer` | internal/agent/controller/utils.go:152-155 | peerings of different names of at most 49 characters have different routes |
| `PeeringNames.RoutesStay` | internal/agent/controller/peering_controller.go:90-183 | creating and deleting a peering leave on every peer the routes of all peerings with another route key (which ones share a key is `KeyNames.SameKeyIff`) |
| `PeeringNames.ShadowIs` | internal/agent/controller/peering_controller.go:241-310 | a shadow has two labels and one annotation, the gateway's keys, and its address if it has one |
| `PeeringPackets.AccessSpeaks` | internal/agent/controller/peering_controller.go:316-384 | the access policy speaks, in both directions, of all traffic of the members labelled as gateways and of nothing else |
| `PeeringPackets.ShadowSpeaks` | internal/agent/controller/peering_controller.go:316-384 | the shadow policy speaks, outbound only, of all traffic of the members labelled as shadows |
| `PeeringPackets.AppliesTo` | internal/agent/controller/peering_controller.go:316-384 | the first applies to everybody, the second exactly to gateways |
| `PeeringPackets.PeeringAllowsExactly` | internal/agent/controller/peering_controller.go:316-384 | for every peer of the network, packet and direction: the policies allow what the others allow, the traffic of the gateways, and for a gateway outbound that of the shadows, and nothing else |
| `PeeringPackets.NothingForOthers` | internal/agent/controller/peering_controller.go:316-384 | for the peers of any other network they add nothing |
| `PeeringPackets.SameNamespaceOneNetwork` | internal/agent/controller/peering_controller.go:130-150 | within one namespace the second network's policies take the place of the first's, and the peering lets nothing through for the first network |
| `PeeringPackets.PeeringLetsThrough` | internal/agent/controller/peering_controller.go:90-150 | after a peering of two namespaces, packets between a peer and its gateway get through the chain both ways, and from a gateway to the gateway of the other side, whose address the shadow has |
| `Lrp.DecodeEncode` | internal/relay/lrp_protocol.go:46-76 | Unmarshal inverts Marshal, whatever follows the header |
| `Lrp.EncodeDecode` | internal/relay/lrp_protocol.go:46-76 | Marshal inverts Unmarshal on every twelve bytes |
| `Lrp.MarshalInto` | internal/relay/lrp_protocol.go:57-63 | the first twelve places become the encoding and the rest of the buffer is unchanged |
| `Lrp.Marshal` | internal/relay/lrp_protocol.go:46-54 | a fresh buffer with the encoding |
| `Lrp.Unmarshal` | internal/relay/lrp_protocol.go:65-76 | fails exactly on fewer than twelve bytes, otherwise the header whose encoding they start with |
| `Lrp.EncodeLayout` | internal/relay/lrp_protocol.go:46-63 | the twelve bytes: sequence (2), payload length (4), command (1), target id (4), reserved (1), each little-endian |
| `LrpServer.HandleSession` | internal/relay/lrp_server.go:99-163 | registers the id exactly of a header with command 1, and relays what the bytes after it parse to |
| `LrpServer.DataFrameIsRelayed` | internal/relay/lrp_server.go:126-162 | a whole frame of command 2 or 4 is relayed with header and payload to the id in its header, and the rest is read on after it |
| `LrpServer.CutDataFrame` | internal/relay/lrp_server.go:126-162 | one whose payload is cut off is not relayed, and neither is anything after it |
| `LrpServer.OtherHeaderIsSkipped` | internal/relay/lrp_server.go:126-162 | a header of any other command is skipped, without a payload |
| `LrpServer.CompleteIsLongest` | internal/relay/lrp_server.go:126-162 | the complete frames of a cut stream are the longest run of frames within it |
| `LrpServer.RelaysCompleteFrames` | internal/relay/lrp_server.go:126-162 | for every prefix of a stream of well-formed frames exactly the complete Forward and Probe frames are relayed, in order, byte for byte |
| `LrpServer.SessionRelaysCompleteFrames` | internal/relay/lrp_server.go:105-162 | the same from the first byte of the session, with the id registered |
| `LrpServer.OtherPayloadIsParsed` | internal/relay/lrp_server.go:141-161 | bytes after any other command's header are read as the next frames |
| `LrpServer.PayloadIgnoredIffHarmless` | internal/relay/lrp_server.go:126-162 | such bytes change nothing, whatever follows, exactly when they are whole headers of such commands |
| `LrpClient.FrameLayout` | internal/relay/lrp_client.go:90-103 | a frame has the low 16 bits of the counter, the length and the id cut to 32 bits, the command and a zero, and then the data |
| `LrpClient.FrameIsWellFormed` | internal/relay/lrp_client.go:90-103 | a built frame is well formed exactly when its length fits 32 bits, or it has no payload and carries none |
| `LrpClient.TcpClient.constructor` | internal/relay/lrp_client_tcp.go:47-76 | a connected client has written exactly its Register header |
| `LrpClient.TcpClient.MakeFrame` | internal/relay/lrp_client.go:90-103 | header with the next sequence number and the cut id and length, then the data |
| `LrpClient.TcpClient.Send` | internal/relay/lrp_client_tcp.go:147-156 | accepts exactly when the queue has room, at its end; what was sent stays conserved |
| `LrpClient.TcpClient.Write` | internal/relay/lrp_client_tcp.go:159-175 | connection and buffer together gain exactly the frame; on failure the connection has a prefix of it |
| `LrpClient.TcpClient.WriterRound` | internal/relay/lrp_client_tcp.go:159-198 | with sends in between and errors anywhere, the wire is always the Register header and a prefix of the accepted frames in order, and grows; a turn that took a frame and was not stopped has everything accepted before it on the wire |
| `LrpClient.TcpClient.DrainBatch` | internal/relay/lrp_client_tcp.go:177-196 | the same for the batch: all that was queued when it looked, whatever is sent meanwhile |
| `Sessions.SessionManager.Register` | internal/relay/session_manager.go:37-41 | the table keeps matching the history with this registration added |
| `Sessions.SessionManager.Unregister` | internal/relay/session_manager.go:43-48 | the same for an unregistration |
| `Sessions.SessionManager.RegisterQUIC` | internal/relay/session_manager.go:50-59 | the same for a QUIC registration |
| `Sessions.SessionManager.Get` | internal/relay/session_manager.go:61-65 | the latest session since the id's last Unregister, none exactly when it is not live |
| `Sessions.SessionManager.Relay` | internal/relay/session_manager.go:67-81 | since the id's last Unregister its latest QUIC connection, else its latest session, else not found |
| `Sessions.SessionManager.ConnectedPeers` | internal/relay/session_manager.go:83-87 | the number of ids registered since their last Unregister |
| `Sessions.SessionsAfter` | internal/relay/session_manager.go:37-59 | the session map tracks the latest registrations over one more operation |
| `Sessions.QuicAfter` | internal/relay/session_manager.go:37-59 | the QUIC map tracks the latest QUIC registrations over one more operation |
| `Sessions.OneTarget` | internal/relay/session_manager.go:67-81 | the history alone determines the target |
| `Sessions.QuicOutlivesTcpSession` | internal/relay/session_manager.go:37-41 | a TCP registration does not take over from a QUIC connection that was not unregistered |
| `RelayPath.WireIsRelayed` | internal/relay/lrp_client_tcp.go:147-198 | every state of the client's wire registers its id and relays the frames of a prefix of the accepted messages |
| `RelayPath.ReachesLatestIff` | internal/relay/lrp_server.go:117-158 | for every history of TCP and QUIC connections, frames for a client go to its latest open connection exactly when since then no connection with the same low 32 bits has ended or taken over and no earlier QUIC connection is registered; among TCP connections: none has opened or ended |
| `RelayPath.RelaysToOpen` | internal/relay/session_manager.go:67-81 | a frame goes to an open connection with the id's low 32 bits, or is not found exactly when every such connection opened before some such connection ended |
| `RelayPath.ReconnectIsLost` | internal/relay/lrp_server.go:117-123 | a client that reconnects is not found once the handler of its first connection has returned, with its second connection open |
| `RelayPath.CollidingIdsShareSession` | internal/relay/lrp_client.go:79-86 | a client with an id 2^32 larger gets the other's frames |
| `RelayPath.MessageReachesClient` | internal/relay/lrp_server.go:105-162 | every relayed frame is an accepted message's, unchanged; it goes to the latest open connection of the client it is for exactly when that is kept, and to no connection that is closed or has other low bits |
| `Mux.FilteringMux.ReadDatagram` | internal/agent/infra/mux_filter.go:110-121 | the datagram, cut to 2048 bytes, is in the buffer, and every queued packet still holds its bytes |
| `Mux.FilteringMux.CopyOut` | internal/agent/infra/mux_filter.go:129-130 | a fresh array with the buffer's bytes |
| `Mux.FilteringMux.Inject` | internal/agent/infra/chan_conn.go:59-66 | a copy at the end of the queue; waits exactly on a full queue of an open mux, gives up only on a closed one |
| `Mux.FilteringMux.PassOn` | internal/agent/infra/mux_filter.go:126-137 | a copy at the end of the channel, or exactly one drop counted when it is full |
| `Mux.FilteringMux.Dispatch` | internal/agent/infra/mux_filter.go:120-139 | the datagram read gets exactly one outcome, or the reader waits with nothing changed |
| `Mux.FilteringMux.ReadFrom` | internal/agent/infra/chan_conn.go:70-78 | the oldest injected packet not yet read, as much as fits |
| `Mux.FilteringMux.Receive` | internal/agent/infra/mux_filter.go:126-137 | the oldest forwarded packet not yet received, with the bytes it arrived with |
| `Mux.PickIsSubsequence` | internal/agent/infra/mux_filter.go:107-140 | the packets of an outcome are the arrivals with that outcome, in order of arrival |
| `Mux.EveryDatagramAccounted` | internal/agent/infra/mux_filter.go:107-140 | with its channel, all datagrams ever handled, also while closing, are the injected, the forwarded and the counted drops together, and the injected are exactly the STUN messages |
| `Mux.FilteringMux.ReaderReturns` | internal/agent/infra/mux_filter.go:111-119 | the read loop ends only on a closed socket, with no datagram in hand |
| `Mux.FilteringMux.Close` | internal/agent/infra/mux_filter.go:143-149 | is done exactly when the reader has returned, and only then closes the connection of the inject queue, so that nothing is lost |
| `MuxClose.BlockedStays` | internal/agent/infra/mux_filter.go:143-149 | while the reader waits for room and nobody reads, Close does not return |
| `MuxClose.CloseNeedsSocket` | internal/agent/infra/mux_filter.go:107-149 | Close does not return unless the socket is closed |
| `MuxClose.CanCloseIff` | internal/agent/infra/mux_filter.go:107-149 | Close can return with nobody reading exactly when the reader is not waiting for room |
| `Tokens.Reconciler.UpdateStatus` | internal/agent/controller/token_controller.go:128-157 | patches only a change, merges over what is stored, swallows a conflict |
| `Tokens.Reconciler.BindPeers` | internal/agent/controller/token_controller.go:103-112 | the status with every missing peer appended as often as the Spec lists it, and counted |
| `Tokens.Reconciler.Reconcile` | internal/agent/controller/token_controller.go:62-124 | the stored status after a reconcile that read any copy, for every answer of the API |
| `TokenRuns.StatusFromSpec` | internal/agent/controller/token_controller.go:62-124 | in every run the flag says expired exactly when the phase does, a token expires only after a reconcile found it due, and the token in the status is one the Spec had |
| `TokenRuns.FixedSpecToken` | internal/agent/controller/token_controller.go:62-124 | while the Spec is not edited, the token in the status is the Spec's from when it is first set, and stays |
| `TokenRuns.CountIs` | internal/agent/controller/token_controller.go:101-157 | at every point of every run of reconciles and enrollments from a fresh token the count is the bound peers and the enrollments no bind has overwritten |
| `TokenRuns.CountsEverythingIff` | internal/server/service/peer.go:379-389 | over any run the count is the bound peers and all enrollments exactly when no bind overwrites an enrollment newer than its copy |
| `TokenRuns.UsedCountIsLength` | internal/agent/controller/token_controller.go:101-112 | at every point of every run of reconciles, however stale the copies read, the count is the number of bound peers |
| `TokenRuns.ExpiredIsAbsorbing` | internal/agent/controller/token_controller.go:62-83 | in every run an expired token stays expired |
| `TokenRuns.UsedCountNeverDecreases` | internal/agent/controller/token_controller.go:101-112 | with up-to-date copies, however the Spec is edited and whoever enrolls, the count never decreases and the list only grows at its end |
| `TokenRuns.FixedSpecNeverDecreases` | internal/agent/controller/token_controller.go:101-157 | with a fixed Spec bound peers stay, however old the copies read, and the count never decreases while no bind overwrites an enrollment |
| `TokenRuns.CountFallsIff` | internal/agent/controller/token_controller.go:101-157 | for any copy and any answers, a reconcile lowers the count exactly when it binds and gains less than it loses, counted with repetition and enrollments |
| `TokenRuns.NeverDecreasesIff` | internal/agent/controller/token_controller.go:101-157 | over any run the count never decreases exactly when no step does that |
| `TokenRuns.BoundOnce` | internal/agent/controller/token_controller.go:101-112 | in every run whose Specs do not repeat a peer no peer is bound twice |
| `TokenRuns.DistinctFallsIff` | internal/agent/controller/token_controller.go:101-157 | without repetition: exactly when it binds, and fewer of the copy's and the Spec's peers are new than bound peers are in neither |
| `TokenRuns.DistinctNeverDecreasesIff` | internal/agent/controller/token_controller.go:101-157 | the same over any run whose Specs do not repeat a peer |
| `TokenRuns.PeerIsLostIff` | internal/agent/controller/token_controller.go:101-157 | a reconcile takes a bound peer away exactly when it binds and the Spec has lost a peer that was bound after the copy was made |
| `TokenRuns.NeverLosesIff` | internal/agent/controller/token_controller.go:101-157 | over any run no bound peer is lost exactly when no step that binds has forgotten one |
| `TokenRuns.CountDecreases` | internal/agent/controller/token_controller.go:101-157 | a run from a fresh token, without failures, in which the count goes from two to one and a peer is lost |
| `TokenRuns.RepeatedPeerDecreases` | internal/agent/controller/token_controller.go:101-157 | with a repeated entry: the count goes from two to one and no peer is ever lost |
| `TokenRuns.LostPeerKeepsCount` | internal/agent/controller/token_controller.go:101-157 | a peer is lost and the count never decreases |
| `TokenRuns.EnrollmentsOverwritten` | internal/server/service/peer.go:379-389 | with a fixed Spec, a bind from a copy before two enrollments takes the count from two to one |
| `Tokens.WritesAreBounded` | internal/agent/controller/token_controller.go:62-124 | with a fixed Spec and no failures at most three reconciles of a run write, whatever the clock says |
| `Tokens.SettlesInThree` | internal/agent/controller/token_controller.go:62-124 | after three such reconciles from any status the token is expired, or has the Spec's token and every peer the Spec binds |
| `Tokens.QuietIff` | internal/agent/controller/token_controller.go:62-124 | a reconcile writes nothing exactly when the token is expired, or not due with the Spec's token and every bound peer in its status |

## Left out

- Kubernetes client, informers, watches, owner references and garbage collection: an abstract store with stale lists, taken names and lost patches stands for them; garbage collection of an endpoint is an event of its own.
- Deletion of peers and networks, and their finalizers: the ownership results are about runs without it.
- Ownership.AddressesNotShared: only for runs that keep the six clauses, because without any one of them it is false (`OwnershipExact.ClauseIsNeeded`); that a particular run breaks a clause does not mean that two peers share an address in it.
- LabelRuns.AtMostOneNetworkLabel: only for reads of the stored peer; the exact condition for runs with any reads is `LabelRuns.OneLabelIffFits`.
- Interleaved.ReconcilesAreRounds: only for reconciles that start from the stored peer; a reconcile from an old copy merges over what is stored and is not a round.
- Ipam.AllocateIP: network prefixes up to 30; what happens for 31 and 32 is in `Ipam.CandidatesAreHosts`. A list call that fails is not modelled.
- Ipam.FindFirstFree: pools with 1 <= prefix <= mask <= 32; which other pools the scan does not leave is in `Ipam.ScanLeavesPool`.
- Policy.GetComputedPeers: the order of the returned list, which is sorted by name, is not modelled; neither is the case of two members with one name.
- RuleCompiler.GetPeerNames: peers are told apart by name instead of by UID, and the sorting of the names is not modelled.
- Peering.Reconciler.ReconcileDelete: every delete and patch succeeds; in the source their errors are ignored.
- PeeringReach.PeeringRoutesBothWays: the peer reconciler's own handling of shadow peers afterwards is not part of it, and a CIDR is taken to have no comma or white space.
- PeeringPackets.PeeringLetsThrough: between two namespaces, because within one it is false (`PeeringPackets.SameNamespaceOneNetwork`); the exact set of packets, without these limits, is `PeeringPackets.PeeringAllowsExactly`.
- RelayPath.MessageReachesClient: whether the target's connection takes the bytes is not modelled; a write or datagram that fails is logged by the server and the frame is lost.
- LrpClient.TcpClient.WriterRound: one connection; reconnecting is not modelled, and neither is the client's receive path.
- TokenRuns.UsedCountIsLength: for runs of reconciles; with enrollments it is `TokenRuns.CountIs`. The count of an enrollment is taken to go onto the current version, as its update demands; a token deleted meanwhile is not modelled.
- Mux.FilteringMux.Dispatch: read errors of the socket are turns without effect and are not steps of the model.
- Firewall.Chains.Provision: the chains as lists of entries; running iptables, its failures, the jump rules and NAT are not modelled, and neither are the macOS and Windows provisioners.
- Textual addresses: the allocator works on numbers; dotted notation, CIDR parsing and IPv6 are not modelled.
- HTTP upgrade, TLS, QUIC transport and read deadlines; the client asks for another upgrade path and protocol name than the server offers.
- SHA-256, JSON, ConfigMaps and their hashes, WireGuard keys.
- DeviceConf beyond the allowed_ip lines; its parser reads other keys than its printer writes.
- The cluster peering, relay and network policy controllers: the same patterns or remote calls.
- Generated code, eBPF, telemetry, configuration, command line, DNS, databases, the server API and the web frontend.
