# Hardess: gateway and message hub, modelled in Dafny

Hardess is a gateway and message hub whose nodes gossip about each other's health, deliver messages
to WebSocket connections, run service modules and serve applications, and are steered by a planner.
This project models its state machines and proves what they keep over whole runs. `dafny verify
dfyconfig.toml` checks everything.

Each uninterrupted stretch of the program is one step, and what may run while it waits is explicit:
calls of `deliverCluster` interleave at every authentication check (`ClusterOverlap`,
`ClusterInterleaving`), and the
connection index changes between the reads of a plan (`PeerLocator`). Two things are taken one at a
time instead: the calls in `ClusterDelivery`, which `ClusterOverlap.AloneIsDeliver` justifies for
calls that do not overlap, and the applies of one runtime host adapter. Clocks, timers, sockets,
staging, the platform's string collation and the URI decoder are parameters or events, so the
theorems hold for all of them. Components that update objects in place are classes; each method's
contract equates the new state with a specification function of the old one, and the lemmas are
about those functions. What each operation does is stated again in plain terms, field by field and
without the function's own helpers, by the lemmas whose names end in `Means` or `Exactly`; the run
theorems say what follows from it.

| files | subject |
|---|---|
| `Placement`, `Rollout` | choosing target hosts, and moving the owners of a deployment towards them in batches above an availability floor |
| `PeerHealth`, `PeerHealthEffects`, `PeerHealthRuns`, `DeadVerdicts`, `PeerHealthStore` | one node's health store with suspect timers, wired to topology view and channels; re-entry through the app's listener |
| `Beliefs`, `Gossip`, `AntiEntropy` | rumors as a join-semilattice, and exactly when a bounced death notice spoils it; the digest, repair request and sync exchange |
| `Egress`, `EgressConnection` | a connection's bounded outbound queue as a FIFO channel over an arbitrary socket |
| `RateLimit`, `ClusterDelivery`, `ClusterOverlap`, `ClusterEffects`, `ClusterInterleaving` | the sliding-window rate limit; suppression of duplicate cluster deliveries, one call at a time and overlapping |
| `ProtocolRegistry`, `ServiceModules`, `ServiceModuleRuns`, `ServiceModuleDrains`, `ServiceModuleManager` | service modules that are active or draining, and the action registry that must follow them |
| `ServePaths`, `ServeApps`, `ServeMatching`, `ServeMounting` | serve applications: paths, route compilation and matching, and mounting as a transformation that preserves meaning |
| `RouteTargets`, `RouteTargetSpread`, `PeerLocator`, `PeerLocatorMoves` | choosing the host for a route; the two connection indexes and delivery plans |
| `PendingDeliveries` | the client's table of unacknowledged deliveries |
| `HostConvergence`, `HostReports`, `RuntimeHostAdapter` | applying desired host state, against the planner's drift check |
| `Prelude`, `Sorting`, `Collations` | shared vocabulary |

Where the code does not do what one would expect, the exact condition is proved:

- A dead verdict on a peer with an open channel does not stick. The listener disconnects the peer, which marks it suspect again (`PeerHealthRuns.DeadSticks`); the next timeout makes it dead again (`SecondTimeoutSticks`), and how long a dead verdict lasts is decided in `DeadVerdicts.DeadLastsExactly`.
- A death notice taken over an open channel bounces into a suspicion one incarnation up, so a store does not always hold the join of what it heard. When it does is decided in `Gossip.FeedJoinsExactly` for one list, in `OrderFreeExactly` for every order of the same verdicts, and in `ConvergeExactly` for the agreement of two stores.
- Repair requests also ask for entries the store will then refuse, because a local verdict of equal incarnation stands (`AntiEntropy.WantedExactly`).
- A cluster delivery whose enqueue throws is not remembered, so a retry duplicates the copies made before the throw. With calls taken one at a time nothing else duplicates (`ClusterDelivery.NeverTwiceExactly`). With calls interleaved, a connection gets a second copy only if a call for the message enters while another is about to serve it or has just served it, or if the last call that stands for its copy throws (`ClusterInterleaving.OrderlyExactly`).
- A suppressed call reports every local target as delivered. The report is true exactly when the first copying call gave each of them its copy (`ClusterDelivery.DuplicateReport`, `UntruthfulReport`).
- A delivery plan can list a connection twice when it moves to another peer while the plan is built, and only then (`PeerLocator.PlanOnceExactly`, `MovedConnectionListedTwice`).
- Two retained assignments that swap protocols, or a module on a built-in's protocol, make an apply throw or leave the registry out of step; no other module list does (`ServiceModuleRuns.ApplyExactly`).
- A route or middleware prefix stored with two trailing slashes, so registered with three, changes its meaning when it is mounted; all others keep it (`ServeMounting.MountedRouteExactly`, `MountedPrefixExactly`, `UntidyRouteLost`).
- The root of a mounted application answers the base, but not the base followed by a slash (`ServeMounting.MountedTextExactly`, `RootMissesTrailingSlash`).
- Child middleware is skipped when the base has a parameter, because prefixes are compared as text (`ServeMounting.MountedChain`).
- A handle-ack that overtakes its receive-ack leaves receive-ack waiters pending for ever (`PendingDeliveries.RecvWaitersLeftBehind`, `LeftBehindForever`).
- A rollout whose surplus owners are all pinned by the availability floor stands still (`Rollout.RoundStuck`).
- Two service-module assignments with one id and different packages make a host drift although the apply returned normally (`HostConvergence.NoDriftAfterApply`). The adapter would record an HTTP assignment without an executable as failed while the check still says "match" (`RecordedExactly`); the wire schema refuses such an assignment before it gets there.

## Model

| member | source | states |
|---|---|---|
| `Placement.NotAfterLawful` | src/sdk/admin/planning.ts:782-808 | the host comparator is a total preorder, so sorting by it is well defined |
| `Placement.RankFacts` | src/sdk/admin/planning.ts:703-741 | the ranking is sorted by the comparator and holds exactly the candidates that may host, demand by demand |
| `Placement.TargetDistinct` | src/sdk/admin/planning.ts:856-866 | with distinct host ids the target owner list names no host twice |
| `Placement.TargetIsLeast` | src/sdk/admin/planning.ts:782-866 | the target is exactly the n hosts to be preferred among those that may host: as many as asked for or available, and to any host left out each is preferred by being sticky, by preferred labels matched, by fewer assignments, or by name, in that order |
| `Placement.TargetInOrder` | src/sdk/admin/planning.ts:703-710 | and they are listed in that order of preference |
| `Placement.AllHostsExactly` | src/sdk/admin/planning.ts:856-866 | in all-hosts mode the target is every candidate that may host |
| `Placement.EligibleExactly` | src/sdk/admin/planning.ts:712-741 | a host may be chosen exactly when its group is the deployment's, it is not reported unready, draining or unschedulable, no required label or capability is lacking, and it has room |
| `Placement.TargetCanonical` | src/sdk/admin/planning.ts:703-710 | the target does not depend on the order in which candidates are offered |
| `Placement.StickyBeforeOthers` | src/sdk/admin/planning.ts:787-792 | every eligible sticky host is ranked before every non-sticky one |
| `Placement.TargetSticky` | src/sdk/admin/planning.ts:856-866 | n eligible sticky hosts are re-planned as exactly themselves, whatever other hosts join |
| `Rollout.CountIsUp` | src/sdk/admin/planning.ts:868-886 | the availability count of a duplicate-free owner list is the number of owners whose first status at the declared version is ready or active |
| `Rollout.AvailableExactly` | src/sdk/admin/planning.ts:868-886 | a host counts as available exactly when its latest observation has, as the first status of the deployment at the declared version, ready or active |
| `Rollout.SettingsRead` | src/sdk/admin/planning.ts:624-626 | batches are the number rounded down and at least one; the floor is the replicas less the rounded-down number that may be unavailable, and never negative |
| `Rollout.WhenGradual` | src/sdk/admin/planning.ts:601-624 | placement goes straight to the target unless a rollout setting asks for steps, all hosts are not wanted, and there are owners to step from |
| `Rollout.AddTargetOwners` | src/sdk/admin/planning.ts:634-643 | the adding loop appends the first missing target hosts until the batch is used up, and never repeats a host |
| `Rollout.DropSurplusOwners` | src/sdk/admin/planning.ts:645-670 | the dropping loop removes surplus owners in order, skipping those the availability floor pins |
| `Rollout.PlanHttpWorkerDeploymentOwners` | src/sdk/admin/planning.ts:601-673 | the planner as written computes the planned owner list the lemmas below speak about |
| `Rollout.RoundSafety` | src/sdk/admin/planning.ts:622-672 | one gradual round: duplicate-free, inside current and target, keeps their intersection, adds min(batch, missing) and drops at most a batch, and availability stays at least min(before, floor) |
| `Rollout.RoundMaximal` | src/sdk/admin/planning.ts:645-672 | and it drops as much as it may: a whole batch, or every surplus owner left is pinned by the floor |
| `Rollout.RoundDropsInOrder` | src/sdk/admin/planning.ts:645-670 | surplus owners go in the order of the owner list: one kept while a later one goes is pinned by the floor |
| `Rollout.AdditionsInOrder` | src/sdk/admin/planning.ts:634-643 | target hosts are added in target order, none skipped for a later one |
| `Rollout.RoundStuck` | src/sdk/admin/planning.ts:645-672 | a round changes nothing exactly when every target host is already an owner and every surplus owner is pinned by the floor |
| `Rollout.RoundCloser` | src/sdk/admin/planning.ts:634-672 | any round that changes something strictly shortens the distance to the target |
| `Rollout.PinnedOnlyAtTarget` | src/sdk/admin/planning.ts:654-666 | once the target hosts that are owners meet the floor by themselves, nothing is pinned short of the target |
| `Rollout.AvailableTargetHolds` | src/sdk/admin/planning.ts:629-629 | they do when every owner in the target is available and the target has at least the size of the floor |
| `Rollout.RoundProgress` | src/sdk/admin/planning.ts:622-672 | every healthy round, one whose target hosts meet the floor once they are all owners, moves strictly closer to the target, and stays there once reached |
| `Rollout.RolloutConverges` | src/sdk/admin/planning.ts:601-673 | a healthy run of as many rounds as owners differ ends exactly at the target, from any start |
| `Rollout.RunSafety` | src/sdk/admin/planning.ts:622-672 | over any run on fixed observations availability never falls below min(start, floor), whatever placement does |
| `PeerHealth.MarkSuspectInv` | src/runtime/cluster/health.ts:110-126 | local suspicion keeps timers, known peers and topology view in agreement |
| `PeerHealth.MarkDeadInv` | src/runtime/cluster/health.ts:128-141 | so does a dead verdict, including the re-entrant disconnect and fresh suspicion |
| `PeerHealth.ApplyRumorInv` | src/runtime/cluster/health.ts:143-181 | so does applying a rumor |
| `PeerHealth.FireTimerInv` | src/runtime/cluster/health.ts:265-272 | so does a dead timer firing |
| `PeerHealth.TopologyInv` | src/runtime/app.ts:219-230 | so does a topology change that drops peers |
| `PeerHealth.RunInv` | src/runtime/cluster/health.ts:92-282 | after every step of every run a dead timer is armed exactly for the suspect entries, entries belong to known peers, and the topology view shows exactly their statuses |
| `PeerHealthEffects.AliveMeans` | src/runtime/cluster/health.ts:92-108 | a sign of life: the peer is alive in store and view as of now, nothing counts down for it, and unless it was locally alive already its incarnation is one up and announced; no other peer is touched |
| `PeerHealthEffects.SuspectMeans` | src/runtime/cluster/health.ts:110-126 | a suspicion: suspect in store and view, one incarnation up with the whole timeout ahead, or, if suspected locally already, same incarnation and timer; no other peer is touched |
| `PeerHealthEffects.DeadMeans` | src/runtime/cluster/health.ts:128-141 | a dead verdict: dead without a timer one incarnation up when no channel is open, and otherwise disconnected and suspect two up; nothing when already said |
| `PeerHealthEffects.DisconnectMeans` | src/runtime/cluster/network.ts:411-423 | losing an open channel is a suspicion with its reason; without a channel nothing happens |
| `PeerHealthEffects.TimerMeans` | src/runtime/cluster/health.ts:265-272 | a dead timer finds its peer suspect and makes it dead |
| `PeerHealthEffects.TimerRunsOutWhenDue` | src/runtime/cluster/health.ts:265-272 | not before its deadline, and from then on |
| `PeerHealthEffects.NewsMeans` | src/runtime/cluster/health.ts:143-181 | a rumor is taken over as told if it is the first about the peer, of a later incarnation, or a worse verdict on an incarnation learnt from others; alive ones bring a last-alive time, suspect ones restart the timer, deaths over an open channel bounce |
| `PeerHealthEffects.OldNewsMeans` | src/runtime/cluster/health.ts:143-160 | any other rumor changes at most the last-alive time of the status that stands, which makes the entry remote |
| `PeerHealthEffects.TopologyMeans` | src/runtime/app.ts:219-230 | a topology change forgets entry, view, channel and timer of exactly the peers outside it |
| `PeerHealthRuns.RunLog` | src/runtime/cluster/health.ts:233-257 | between two snapshots of a peer with no forgetting in between, (incarnation, rank) strictly rises; no entry is ever below its last snapshot |
| `PeerHealthRuns.RunGrows` | src/runtime/cluster/health.ts:92-181 | while a peer is kept its (incarnation, rank) never goes down |
| `PeerHealthRuns.RumorTakenOnce` | src/runtime/cluster/health.ts:143-181 | a rumor once applied is never applied again while the peer is kept, so it is re-broadcast at most once |
| `PeerHealthRuns.SuspicionKeepsTimer` | src/runtime/cluster/health.ts:110-126 | suspecting a suspect keeps its running dead timer exactly when the standing suspicion is local; a gossiped one is restarted in full |
| `PeerHealthRuns.RepeatedSuspicionKeepsDeadline` | src/runtime/cluster/health.ts:259-273 | any amount of further local suspicion while time passes leaves the dead deadline where it was |
| `PeerHealthRuns.DeadSticks` | src/runtime/app.ts:257-260 | a new dead verdict stays dead exactly when no channel to the peer is open; otherwise the disconnect turns it into a suspicion two incarnations up |
| `PeerHealthRuns.SecondTimeoutSticks` | src/runtime/cluster/health.ts:265-272 | with the channel closed the next timeout makes the peer dead, in store and view, and consumes only that timer |
| `DeadVerdicts.DeadUntilRevived` | src/runtime/cluster/health.ts:110-181 | one event ends a dead verdict exactly if it is a local sign of life or suspicion, a disconnect or renewed announcement over an open channel, a greater rumor other than a death over a closed one, or a topology without the peer |
| `DeadVerdicts.DeadLastsExactly` | src/runtime/cluster/health.ts:92-181 | over a run a dead verdict stays throughout exactly as long as no such event occurs |
| `PeerHealthStore.ClusterPeerHealthStore.MarkAlive` | src/runtime/cluster/health.ts:92-108 | in place, exactly the specified state change |
| `PeerHealthStore.ClusterPeerHealthStore.MarkSuspect` | src/runtime/cluster/health.ts:110-126 | in place, exactly the specified state change |
| `PeerHealthStore.ClusterPeerHealthStore.MarkDead` | src/runtime/cluster/health.ts:128-141 | in place, exactly the specified state change, re-entry through the listener included |
| `PeerHealthStore.ClusterPeerHealthStore.ApplyRumor` | src/runtime/cluster/health.ts:143-181 | in place, exactly the specified state change; returns whether the rumor was applied |
| `PeerHealthStore.ClusterPeerHealthStore.EmitSnapshot` | src/runtime/app.ts:231-261 | the listener: topology view, outgoing rumor, and disconnecting a dead peer |
| `PeerHealthStore.ClusterPeerHealthStore.DisconnectPeer` | src/runtime/cluster/network.ts:411-423 | closes the channel and reports the peer suspect, re-entering the store |
| `PeerHealthStore.ClusterPeerHealthStore.OnSuspectTimeout` | src/runtime/cluster/health.ts:265-272 | the timer callback: exactly the specified state change |
| `PeerHealthStore.ClusterPeerHealthStore.NoteKnownPeers` | src/runtime/cluster/health.ts:59-73 | drops exactly the entries of peers that left, with their timers |
| `PeerHealthStore.ClusterPeerHealthStore.OnTopologyChanged` | src/runtime/app.ts:219-230 | the topology listener: known peers, view and channels shrink together |
| `Beliefs.HeldJoin` | src/runtime/cluster/health.ts:143-181 | as long as no death notice bounces, the peer is held at the greatest (incarnation, rank) of what was known and what is heard |
| `Beliefs.Aftermath` | src/runtime/app.ts:257-260 | after a bounce at incarnation i the belief is the join if something carried is two incarnations later, dead at i+1 if a later last-alive time reopened it, and otherwise stuck as suspect at i+1 |
| `Gossip.ApplyRumorHears` | src/runtime/cluster/health.ts:143-181 | a rumor changes what is believed about its peer exactly as the one-peer model says, the bounce over an open channel included |
| `Gossip.ApplyRumorOthers` | src/runtime/cluster/health.ts:143-181 | and touches no other peer |
| `Gossip.FeedJoinsExactly` | src/runtime/cluster/health.ts:143-181 | a store that knows nothing about a peer, or what a rumor taught it, ends at the join of what it knew and what a list carries if and only if no death notice bounces, or the one that does is survived: outrun, equalled by the suspicion it leaves, or reopened |
| `Gossip.ReopenedReachesJoin` | src/runtime/cluster/health.ts:150-160 | a concrete list in which the refreshed last-alive time reopens a bounced entry and the join is reached |
| `Gossip.OrderFreeExactly` | src/runtime/cluster/health.ts:284-302 | every list carrying the same verdicts ends at their join, in any order and multiplicity, if and only if the channel is closed or every death notice is outlived by something beyond the suspicion it would leave |
| `Gossip.StoresConverge` | src/runtime/cluster/health.ts:284-315 | two stores that know nothing about a peer, or what rumors taught them, agree on it once what they knew and heard carries the same verdicts, in any order and multiplicity, if each has no open channel to it or all death notices it hears are outlived |
| `Gossip.ConvergeExactly` | src/runtime/cluster/health.ts:284-315 | starting without an entry, they agree after all lists carrying the same verdicts if and only if neither has an open channel, or all death notices are outlived, or both have one and the only death notices are at the greatest incarnation |
| `Gossip.LastAliveDependsOnOrder` | src/runtime/cluster/health.ts:168-170 | a concrete pair of rumors after which the last-alive time depends on their order: it is not part of what converges |
| `AntiEntropy.CollectPeerHealthRepairTargets` | src/runtime/cluster/network.ts:709-741 | the loop requests a peer exactly when some digest entry about it is wanted |
| `AntiEntropy.WantedExactly` | src/runtime/cluster/network.ts:714-738 | wanted means: unheard of, or the store would apply it, or a local verdict of equal incarnation is outranked, or a remote one of equal status has an older last-alive time |
| `AntiEntropy.ApplyCovers` | src/runtime/cluster/health.ts:143-181 | after applying a rumor the entry is at least at its incarnation, and at its verdict unless a local verdict of that incarnation stands |
| `AntiEntropy.FeedCovers` | src/runtime/cluster/network.ts:982-1002 | applying a whole sync message covers every rumor in it |
| `AntiEntropy.AntiEntropyRound` | src/runtime/cluster/network.ts:959-1002 | after digest, repair request and sync, the receiver has for every known digested peer at least the digested incarnation, and at least its verdict unless a local verdict at the answered incarnation stands, though both stores moved on in between |
| `AntiEntropy.QuietMeansAgreement` | src/runtime/cluster/network.ts:709-741 | when neither side wants anything from the other, both have the same peers at the same incarnation and status |
| `Egress.DrainTurn` | src/runtime/ingress/websocket.ts:296-315 | one turn of the drain loop loses, reorders and duplicates nothing, whatever the socket answers |
| `Egress.EnqueueInv` | src/runtime/ingress/websocket.ts:371-414 | enqueueing keeps the FIFO relation, the byte count, both limits and the pending wake-up |
| `Egress.EnqueueMeans` | src/runtime/ingress/websocket.ts:371-414 | enqueueing throws and closes exactly when a direct attempt is over the buffer limit, dropped or throws, or the message is not sent at once and does not fit; otherwise it is with the socket or last in the queue, with the back-off timer armed after a direct attempt |
| `Egress.FreshInv` | src/runtime/ingress/websocket.ts:843-850 | a new connection satisfies all of it |
| `Egress.StepInv` | src/runtime/ingress/websocket.ts:247-327 | so does every other event |
| `Egress.EgressRefinesFifo` | src/runtime/ingress/websocket.ts:247-414 | in every run against every socket accepted ++ queued = submitted while open, accepted is a prefix of submitted, byte count and limits hold, and a non-empty open queue has exactly one wake-up pending |
| `Egress.ClosedIsFinal` | src/runtime/ingress/websocket.ts:163-178 | after close nothing more reaches the socket |
| `Egress.DrainDelivers` | src/runtime/ingress/websocket.ts:293-316 | against a willing socket one drain delivers the whole queue in order |
| `Egress.DrainMeans` | src/runtime/ingress/websocket.ts:293-316 | against any socket a drain hands over exactly the messages before the first attempt that is not taken, and then keeps the rest for the back-off timer or closes |
| `Egress.PendingWakeUpsDeliver` | src/runtime/ingress/websocket.ts:280-327 | once the socket is willing, the wake-ups already pending deliver everything submitted |
| `Egress.WillingSocketNeverQueues` | src/runtime/ingress/websocket.ts:377-389 | a run of submissions to a willing socket is sent directly, in order |
| `EgressConnection.ConnectionState.EnqueueOutbound` | src/runtime/ingress/websocket.ts:371-414 | in place, exactly the specified state change; tells whether it throws |
| `EgressConnection.ConnectionState.DrainOutboundQueue` | src/runtime/ingress/websocket.ts:293-316 | the while loop computes exactly the specified drain |
| `EgressConnection.ConnectionState.TrySendNow` | src/runtime/ingress/websocket.ts:247-278 | in place, exactly the specified outcome for every socket answer |
| `EgressConnection.ConnectionState.OnRetryTimer` | src/runtime/ingress/websocket.ts:285-290 | the retry timer callback |
| `EgressConnection.ConnectionState.CloseConnection` | src/runtime/ingress/websocket.ts:163-178 | marks the connection closed and disarms its retry timer |
| `RateLimit.MessageWindow.OnMessage` | src/runtime/ingress/websocket.ts:863-879 | admits or refuses one message and keeps the timestamps still in the window |
| `RateLimit.ArrivalsRemember` | src/runtime/ingress/websocket.ts:865-867 | what is remembered is exactly the admitted messages younger than one window |
| `RateLimit.EveryWindowBounded` | src/runtime/ingress/websocket.ts:863-879 | every half-open span of one window length contains at most maxMessages admitted messages, over the whole life of the connection |
| `RateLimit.AdmittedExactly` | src/runtime/ingress/websocket.ts:868-879 | a message is admitted exactly when fewer than maxMessages admitted ones lie in the window ending with it |
| `ClusterOverlap.ClusterDeliveryHandler.PruneRecentClusterDeliveries` | src/runtime/ingress/websocket.ts:603-609 | removes exactly the expired suppressions |
| `ClusterOverlap.ClusterDeliveryHandler.BeginDelivery` | src/runtime/ingress/websocket.ts:949-984 | the stretch of a call up to its first wait: refusal, pruning, suppression, and passing over unlisted targets |
| `ClusterOverlap.ClusterDeliveryHandler.ResumeDelivery` | src/runtime/ingress/websocket.ts:982-1003 | the stretch after an authentication check: enqueue, then on to the next wait or the end of the call |
| `ClusterEffects.BeginMeans` | src/runtime/ingress/websocket.ts:949-984 | a call is refused, or answered with its local targets when the message is still remembered, or goes on to wait for its first local listed target |
| `ClusterEffects.ResumeMeans` | src/runtime/ingress/websocket.ts:982-1003 | after a check the target is passed over when its context is invalid, ends the call unremembered when enqueueing throws, and otherwise counts as delivered, with a copy if the connection took one |
| `ClusterOverlap.AloneIsDeliver` | src/runtime/ingress/websocket.ts:943-1004 | a call that no other call interrupts does exactly what the one-step model says |
| `ClusterEffects.DeliverMeans` | src/runtime/ingress/websocket.ts:974-1003 | a call for a message not remembered reports every target it reaches in order, copies to each that takes it, and remembers the message for its time-to-live if it reached anyone |
| `ClusterEffects.ThrowMeans` | src/runtime/ingress/websocket.ts:990-996 | a call that throws has copied to exactly those reached before the throwing target, and remembers nothing |
| `ClusterEffects.RememberedMeans` | src/runtime/ingress/websocket.ts:966-972 | a call for a remembered message copies nothing, reports its local targets and leaves the expiry as it is |
| `ClusterInterleaving.OncePerConnection` | src/runtime/ingress/websocket.ts:943-1004 | in orderly runs, calls for this and other messages interleaved at every wait, a connection never gets a second copy |
| `ClusterInterleaving.OnceFromFresh` | src/runtime/ingress/websocket.ts:943-1004 | in particular from a hub that has not copied the message to it and has no call for the message under way |
| `ClusterInterleaving.OrderlyExactly` | src/runtime/ingress/websocket.ts:968-1001 | orderliness is exact: an event keeps every orderly continuation from making a second copy if and only if a call that enters keeps clear of those that are about to serve or have just served the connection, and a call that served it throws only if something else stands for its copy |
| `ClusterInterleaving.DisjointCallIsOrderly` | src/runtime/ingress/websocket.ts:968-990 | a call that shares no connection with the calls for the message under way may begin |
| `ClusterInterleaving.OverlapCopiesTwice` | src/runtime/ingress/websocket.ts:968-990 | a second call for a target a first one waits on passes the duplicate check, and both copy |
| `ClusterDelivery.SuppressedUntilExpiry` | src/runtime/ingress/websocket.ts:968-972 | in runs of serialised calls no further copy of a suppressed message is enqueued for anyone, whatever is interleaved, and the suppression stays |
| `ClusterDelivery.AtMostOneCopy` | src/runtime/ingress/websocket.ts:943-1004 | in runs of serialised calls, from the first copying call on, if it returns normally, calls within its time-to-live leave each connection with exactly the copies that call made |
| `ClusterDelivery.NeverTwiceExactly` | src/runtime/ingress/websocket.ts:990-1001 | no continuation within the time-to-live duplicates a copy if and only if the first copying call returns normally |
| `ClusterDelivery.ThrowingCallIsNotRemembered` | src/runtime/ingress/websocket.ts:990-1001 | repeating any throwing call once its connections recover duplicates every copy it made |
| `ClusterDelivery.DuplicateReport` | src/runtime/ingress/websocket.ts:969-972 | a call suppressed after a normal first copying call copies nothing, and its report is truthful exactly when each of its local connections was given its copy by that first call |
| `ClusterDelivery.UntruthfulReport` | src/runtime/ingress/websocket.ts:969-972 | a suppressed call to a connection the first one did not serve reports a delivery that never happened |
| `ProtocolRegistry.ServerProtocolRegistry.Register` | src/runtime/protocol/registry.ts:15-27 | adds actions one by one, stopping with a throw at a taken one |
| `ProtocolRegistry.ServerProtocolRegistry.Replace` | src/runtime/protocol/registry.ts:29-34 | exactly the module's actions on its protocol and version, others untouched |
| `ProtocolRegistry.ServerProtocolRegistry.Unregister` | src/runtime/protocol/registry.ts:36-43 | removes exactly one protocol and version |
| `ProtocolRegistry.RegisterFree` | src/runtime/protocol/registry.ts:15-27 | on a free protocol and version registering succeeds and adds exactly the module's actions |
| `ProtocolRegistry.RegisterTaken` | src/runtime/protocol/registry.ts:18-23 | registering over any taken action throws |
| `ServiceModules.StartInv` | src/runtime/app.ts:195-203 | built-ins on pairwise distinct slots register without a clash, and a manager over them starts in step |
| `ServiceModules.ActivateStep` | src/runtime/control/service-module-manager.ts:93-130 | activating a module whose slot nobody else holds never throws and keeps the registry exact |
| `ServiceModuleRuns.PrepareOwners` | src/runtime/control/service-module-manager.ts:180-243 | prepared modules are validated, one assignment per protocol and version, and cover every service-module assignment |
| `ServiceModuleDrains.PrepareExactly` | src/runtime/control/service-module-manager.ts:180-243 | preparation succeeds exactly when every service assignment can be started and no two different ones bring one package; it yields the staged modules in order |
| `ServiceModuleDrains.BoundPackageExactly` | src/runtime/control/service-module-manager.ts:322-361 | a staged module fits its package exactly when digest and identity agree and both name the same actions, none twice |
| `ServiceModuleRuns.FailedPrepareChangesNothing` | src/runtime/control/service-module-manager.ts:76-76 | a preparation that throws leaves registry and tables untouched |
| `ServiceModuleRuns.OneDrainingPerSlot` | src/runtime/control/service-module-manager.ts:312-319 | at most one draining module holds a slot, so finding the first is enough |
| `ServiceModuleRuns.ApplySafe` | src/runtime/control/service-module-manager.ts:66-132 | without slot theft applying never throws; exactly the new assignments are active and the registry holds exactly the built-in, active and draining actions |
| `ServiceModuleRuns.ApplyExactly` | src/runtime/control/service-module-manager.ts:93-109 | with distinct ids, applying returns normally with the registry exact if and only if no module claims the slot of a built-in or of a retained assignment processed after it |
| `ServiceModuleRuns.TheftBreaks` | src/runtime/control/service-module-manager.ts:102-108 | if such a claim does not throw, the registry ends up out of step |
| `ServiceModuleRuns.LookupFindsHolder` | src/runtime/protocol/registry.ts:45-55 | a look-up finds an action exactly when the one built-in, active or draining module on that protocol and version offers it, and returns that module's hooks |
| `ServiceModuleRuns.DrainTimerHarmless` | src/runtime/control/service-module-manager.ts:276-283 | any drain timer ever started may fire at any time: the registry stays exact, no active module loses an action, stale timers do nothing |
| `ServiceModuleDrains.TimerEndsDraining` | src/runtime/control/service-module-manager.ts:276-283 | the timer a module drains on ends it: nothing is found on its slot any more, and every other slot and table entry is as it was |
| `ServiceModuleDrains.StaleTimerNeverBites` | src/runtime/control/service-module-manager.ts:276-283 | a timer started before a module began draining never ends that draining, whatever is applied in between |
| `ServiceModuleDrains.ApplyStartsAfresh` | src/runtime/control/service-module-manager.ts:269-293 | every timer started before an apply is stale to what the apply drains |
| `ServiceModuleDrains.DrainingAfterApply` | src/runtime/control/service-module-manager.ts:79-91 | after an apply exactly these drain: modules active before and no longer assigned, given a grace period, and those draining already, except assignments named again and slots taken by a new module |
| `ServiceModuleDrains.ActiveAfterApply` | src/runtime/control/service-module-manager.ts:93-130 | every new module is active and its actions are found with its own hooks |
| `ServiceModuleDrains.UnassignedKeepsAnswering` | src/runtime/control/service-module-manager.ts:269-293 | with a grace period a module no longer assigned and not displaced is still found with its own hooks after the apply |
| `ServiceModuleDrains.UnassignedGoneAtOnce` | src/runtime/control/service-module-manager.ts:269-274 | without one nothing is found on its slot |
| `ServiceModuleDrains.DrainingKeepsAnswering` | src/runtime/control/service-module-manager.ts:276-310 | a draining module goes on answering through any run that steals no slot, until its own timer fires or an apply names or displaces it |
| `ServiceModuleRuns.RegistryInStep` | src/runtime/control/service-module-manager.ts:66-319 | over all runs of applies and drain timers the registry stays exact with one owner per slot |
| `ServiceModuleRuns.RunUnambiguous` | src/runtime/control/service-module-manager.ts:86-91 | in every state of such a run the search for a draining module in the way has at most one to find |
| `ServiceModuleManager.PrepareAssignments` | src/runtime/control/service-module-manager.ts:180-243 | the preparing loop computes the specified modules, or throws |
| `ServiceModuleManager.Manager.BeginDraining` | src/runtime/control/service-module-manager.ts:269-293 | in place, exactly the specified state change, with and without a grace period |
| `ServiceModuleManager.Manager.ApplyAssignments` | src/runtime/control/service-module-manager.ts:66-132 | in place, exactly the specified change whenever no two draining modules share a slot; in every state a failed preparation changes nothing and a normal return leaves exactly the assigned modules active |
| `ServiceModuleManager.Manager.OnDrainTimer` | src/runtime/control/service-module-manager.ts:276-283 | the drain timer callback with its staleness check |
| `ServePaths.NormalizeClean` | src/sdk/serve/index.ts:119-127 | normalising once is enough exactly for paths that do not end in two slashes |
| `ServePaths.SplitConcat` | src/runtime/serve/worker.ts:171-173 | splitting distributes over joining with a slash |
| `ServePaths.UnderSegments` | src/sdk/serve/index.ts:141-141 | the segments of base + path as text are those of base followed by those of path, except that the root of a proper base leaves one empty last segment |
| `ServePaths.RequestSegments` | src/sdk/serve/index.ts:129-142 | joining base and path concatenates their segments |
| `ServePaths.JoinAssociative` | src/sdk/serve/index.ts:129-142 | on clean paths joining is associative with "/" and the absent base as units |
| `ServePaths.UncleanJoinDiffers` | src/sdk/serve/index.ts:119-127 | a concrete path with two trailing slashes that joining normalises again |
| `ServePaths.PrefixIsSegmentwise` | src/runtime/serve/worker.ts:227-232 | the textual prefix test holds exactly when the prefix's segments are a prefix of the path's |
| `ServePaths.StripInvertsRequest` | src/runtime/serve/worker.ts:198-208 | stripping a match prefix undoes serving under it |
| `ServePaths.StripMeans` | src/runtime/serve/worker.ts:198-208 | whatever follows the prefix in the text is kept, with a slash in front; other paths are left alone |
| `ServeApps.CompileRoute` | src/runtime/serve/worker.ts:169-196 | the compiling loop computes the specified pattern and parameter names |
| `ServeApps.MatchIsRegex` | src/runtime/serve/worker.ts:175-187 | segment-wise matching is exactly matching the route's regular expression, captures included |
| `ServeMatching.RouteMeans` | src/runtime/serve/worker.ts:140-196 | on path text: a route answers exactly the requests of its method whose segments equal its own, or are not empty where it has ":name"; its parameters are exactly those names, each with the decoded segment at its last place, and a malformed one is an error |
| `ServeMatching.DispatchMeans` | src/runtime/serve/worker.ts:140-167 | the first such route of an application decides, and a request that none answers is not found |
| `ServeMatching.ChainMeans` | src/runtime/serve/worker.ts:50-52 | a request runs through exactly the middleware without a prefix or with one whose segments it starts with, in order of registration |
| `ServeApps.FindRoute` | src/runtime/serve/worker.ts:140-167 | the first route whose method and pattern match, with decoded parameters |
| `ServeApps.ServeAppBuilder.RegisterRoute` | src/sdk/serve/index.ts:73-86 | appends the normalised route, or throws on a path without a leading slash |
| `ServeApps.ServeAppBuilder.UseMiddleware` | src/sdk/serve/index.ts:33-49 | appends the middleware under its normalised prefix, or throws on one without a leading slash |
| `ServeApps.ServeAppBuilder.UseApp` | src/sdk/serve/index.ts:33-43 | appends exactly the child's routes and middleware, joined to the base, or throws on a prefix without a leading slash |
| `ServeMounting.MountedPattern` | src/sdk/serve/index.ts:103-109 | whatever the base ends in, a mounted route matches the segments of the normalised base followed by its own; the root route those of the base normalised once more |
| `ServeMounting.MountedRoute` | src/runtime/serve/worker.ts:150-164 | under that base a mounted route answers the request joined from base and path exactly as the route answers path, with the base's parameters underneath |
| `ServeMounting.MountedRouteExactly` | src/runtime/serve/worker.ts:169-196 | it does so for every request if and only if normalising its stored path once more is enough |
| `ServeMounting.UntidyRouteLost` | src/sdk/serve/index.ts:103-109 | a route stored with two trailing slashes answers alone but is lost under a mount |
| `ServeMounting.MountedTextExactly` | src/sdk/serve/index.ts:141-141 | on the plain text base + path it answers as the route answers path, except that a route answering "/" is not reached at base + "/" |
| `ServeMounting.MountPreservesText` | src/sdk/serve/index.ts:97-109 | the same for whole applications |
| `ServeMounting.RootMissesTrailingSlash` | src/sdk/serve/index.ts:138-140 | a child's root route answers "/", but its mounted form does not answer the base followed by a slash |
| `ServeMounting.MountPreservesDispatch` | src/sdk/serve/index.ts:97-109 | dispatch under a mount, parametrised bases included: same handler and parameters as the child, falling through to later routes when the child has no answer; for any base, unless it ends in two slashes once stored and the child has a root route |
| `ServeMounting.LiteralMountPreservesDispatch` | src/sdk/serve/index.ts:97-109 | at a literal base the parent answers exactly as the child does |
| `ServeMounting.MountIsolated` | src/sdk/serve/index.ts:103-109 | a mounted route answers only requests whose leading segments match the base |
| `ServeMounting.MountedPrefixExactly` | src/sdk/serve/index.ts:111-116 | mounted middleware covers exactly the paths it covers alone if and only if its stored prefix is tidy |
| `ServeMounting.MountedChain` | src/sdk/serve/index.ts:111-116 | child middleware under the base's own text is exactly the child's chain; under another form of a parametrised base it is skipped |
| `ServeMounting.MountPreservesChain` | src/sdk/serve/index.ts:97-117 | the parent runs its own chain and then the child's, in order |
| `ServeMounting.MountsCompose` | src/sdk/serve/index.ts:97-117 | mounting a mount is mounting once at the joined base |
| `ServeMounting.MountedPrefixText` | src/sdk/serve/index.ts:111-116 | whatever the base ends in, the text a mounted middleware prefix is compared with |
| `ServeMounting.BaseWithTrailingSlash` | src/sdk/serve/index.ts:133-133 | a base that keeps one trailing slash mounts like the base without it |
| `ServeMounting.MountWithoutPrefix` | src/sdk/serve/index.ts:129-132 | mounting without a prefix stores the same application if and only if every path was already normalised |
| `RouteTargets.StableHash` | src/runtime/control/topology-store.ts:261-267 | the loop computes the specified 32-bit hash |
| `RouteTargets.HashIsPolynomial` | src/runtime/control/topology-store.ts:261-267 | the hash is the base-31 polynomial of the character codes modulo 2^32 |
| `RouteTargets.FindBestRoute` | src/runtime/control/topology-store.ts:186-210 | the nested loops compute the specified best route |
| `RouteTargets.BestIsLongest` | src/runtime/control/topology-store.ts:197-206 | the first of the longest matching prefixes, and none only if none matches |
| `RouteTargets.BuildRouteTargets` | src/runtime/control/topology-store.ts:212-238 | the loop computes the specified targets in owner order |
| `RouteTargets.TargetDescribed` | src/runtime/control/topology-store.ts:218-236 | the target of an owner is its last listed host, with its node and state, reached internally when it has an internal address and else publicly |
| `RouteTargets.ResolveBestTier` | src/runtime/control/topology-store.ts:141-185 | the target is a reachable owner in the best non-empty health tier, never self, never reported dead, never offline; none exactly when all tiers are empty |
| `RouteTargets.LookupExactly` | src/runtime/control/topology-store.ts:131-177 | the whole lookup: a best target of the first longest matching route, undefined exactly when no route matches or all four tiers of that route are empty |
| `RouteTargetSpread.RouteSpread` | src/runtime/control/topology-store.ts:141-258 | it is picked from all reachable owners of its tier, each as often as listed, at the hash of its key modulo their number in the order of host ids; the key is the trace key, or the route id and their number |
| `RouteTargetSpread.LookupSpread` | src/runtime/control/topology-store.ts:131-258 | and so is the answer of the whole lookup, for the first longest matching route |
| `RouteTargets.OwnerOrderIrrelevant` | src/runtime/control/topology-store.ts:240-258 | the choice does not depend on the order in which a route lists its owners |
| `PeerLocator.InMemoryPeerLocator.Register` | src/runtime/routing/peer-locator.ts:7-26 | in place, exactly the specified change of both indexes |
| `PeerLocator.InMemoryPeerLocator.Unregister` | src/runtime/routing/peer-locator.ts:28-45 | in place, exactly the specified change of both indexes |
| `PeerLocator.InMemoryPeerLocator.CountConnections` | src/runtime/routing/peer-locator.ts:51-53 | the number of connections, which while the indexes agree is the sum of the counts per peer |
| `PeerLocator.InMemoryPeerLocator.CountConnectionsForPeer` | src/runtime/routing/peer-locator.ts:55-57 | while the indexes agree, how many connections the per-connection index attributes to the peer |
| `PeerLocator.InMemoryPeerLocator.FindMany` | src/runtime/routing/peer-locator.ts:68-74 | each peer's connections at the moment it is read, other changes running between the reads |
| `PeerLocator.InMemoryPeerLocator.BuildPlan` | src/runtime/routing/dispatcher.ts:6-25 | the concatenation of those reads over the distinct peers |
| `PeerLocator.RegisterInv` | src/runtime/routing/peer-locator.ts:7-26 | registering keeps the indexes in agreement, a connection moving to another peer included |
| `PeerLocator.IndexesAgree` | src/runtime/routing/peer-locator.ts:7-45 | after any sequence of registrations and removals the per-peer index is exactly the grouping of the per-connection one, without empty groups |
| `PeerLocatorMoves.RegisterMeans` | src/runtime/routing/peer-locator.ts:7-26 | a registered connection is in both indexes as registered, nowhere else, and every other one is where it was |
| `PeerLocatorMoves.UnregisterMeans` | src/runtime/routing/peer-locator.ts:28-45 | an unregistered one is in neither index, and every other one is where it was |
| `PeerLocatorMoves.RegisterNewOrder` | src/runtime/routing/peer-locator.ts:7-26 | a new connection comes last in its peer's group |
| `PeerLocatorMoves.RegisterAgainOrder` | src/runtime/routing/peer-locator.ts:7-26 | one that registers again keeps its place under the same peer, and comes last under another, leaving no gap |
| `PeerLocatorMoves.UnregisterOrder` | src/runtime/routing/peer-locator.ts:28-45 | unregistering closes the gap and keeps the order of the others |
| `PeerLocator.CountsAddUp` | src/runtime/routing/peer-locator.ts:51-57 | per-peer counts add up to the total |
| `PeerLocator.PlanOnceExactly` | src/runtime/routing/dispatcher.ts:14-18 | however the locator changes meanwhile, a plan lists every connection at most once if and only if none moves from a peer already read to one still to be read |
| `PeerLocator.DuplicateNeedsRegistration` | src/runtime/routing/peer-locator.ts:7-26 | for that a connection already listed must be registered, between the two reads, under a peer read later, in the requested group |
| `PeerLocator.PlanLists` | src/runtime/routing/dispatcher.ts:14-18 | it lists exactly what some read finds |
| `PeerLocator.PlanExact` | src/runtime/routing/dispatcher.ts:6-25 | an undisturbed plan reaches exactly the connections of the requested peers in the requested group, each once |
| `PeerLocator.MovedConnectionListedTwice` | src/runtime/routing/peer-locator.ts:68-74 | a connection that moves between two reads is listed twice |
| `PendingDeliveries.PendingDeliveryTable.CreatePendingDelivery` | src/sdk/runtime/client.ts:567-590 | in place, exactly the specified entry with its two timers |
| `PendingDeliveries.PendingDeliveryTable.EmitDeliveryEvent` | src/sdk/runtime/client.ts:651-705 | in place, exactly the specified effect of each signal |
| `PendingDeliveries.PendingDeliveryTable.FailPendingDeliveriesOnClose` | src/sdk/runtime/client.ts:789-816 | the loop fails every delivery in the table and empties it |
| `PendingDeliveries.PendingDeliveryTable.Close` | src/sdk/runtime/client.ts:239-267 | the loop fails every delivery in the table and empties it, without completing them |
| `PendingDeliveries.StepInv` | src/sdk/runtime/client.ts:651-705 | every event keeps timers, outcomes and waiters of every delivery sound |
| `PendingDeliveries.DeliveriesSound` | src/sdk/runtime/client.ts:567-937 | in every run the handle-ack timer is armed exactly while the delivery is in the table; on leaving both timers are off, the handle-ack outcome has been written exactly once and no handle-ack waiter is left |
| `PendingDeliveries.SignalMeans` | src/sdk/runtime/client.ts:663-704 | signal by signal: a receive-ack acknowledges and its timeout fails the first stage, a handle-ack acknowledges the second and ends the delivery, any failure fails the stages still open and ends it, and waiters are answered; other deliveries are untouched |
| `PendingDeliveries.TimerMeans` | src/sdk/runtime/client.ts:844-890 | an armed timer that runs out finds its delivery in the table and fails its stage, the handle-ack one ending the delivery |
| `PendingDeliveries.CloseMeans` | src/sdk/runtime/client.ts:789-816 | closing, by transport or client, fails the open stages of every delivery in the table |
| `PendingDeliveries.RecvWaitersLeftBehind` | src/sdk/runtime/client.ts:680-688 | receive-ack waiters are left behind exactly when a handle-ack overtakes the receive-ack |
| `PendingDeliveries.LeftBehindForever` | src/sdk/runtime/client.ts:651-657 | waiters left behind are never settled afterwards |
| `HostConvergence.BuildsExactly` | src/runtime/control/runtime-host-adapter.ts:304-418 | building a configuration succeeds exactly when every HTTP assignment is staged (or external) and refers to known routes only |
| `HostConvergence.PipelinesForExactly` | src/runtime/control/runtime-host-adapter.ts:349-404 | one pipeline per route reference, in order, carrying the last route of that id |
| `HostConvergence.BuiltAsExpected` | src/sdk/admin/planning.ts:996-1012 | the built pipelines are one for one the ids the planner expects, before it sorts them |
| `HostReports.PipelinesExactly` | src/runtime/control/runtime-host-adapter.ts:349-404 | the configuration holds exactly the pipelines of its assignments, field by field: id, prefix, origin, websocket flag and group, with a worker unless it is served externally |
| `HostReports.ApplyThrowsExactly` | src/runtime/control/runtime-host-adapter.ts:124-170 | applying throws exactly when an assignment cannot be built, the modules cannot be applied, trust throws or publication is not clean; pipelines and modules are the desired ones as soon as they have been published and applied |
| `HostReports.CheckLists` | src/sdk/admin/planning.ts:1192-1195 | missing is exactly what is asked for and not reported, unexpected what is reported and not asked for |
| `HostReports.CheckMeans` | src/sdk/admin/planning.ts:1197-1206 | match exactly when asked for and reported agree; otherwise drift, or not reported where there is no summary |
| `HostConvergence.ApplyActive` | src/runtime/control/service-module-manager.ts:66-132 | after a normal apply the active table holds exactly the assigned modules, whatever state it started from |
| `HostConvergence.PackagesExactly` | src/sdk/admin/planning.ts:1014-1026 | active packages are all expected; all expected ones are active exactly when no assignment id is used for two packages |
| `HostConvergence.NoDriftAfterApply` | src/sdk/admin/planning.ts:394-448 | after a normal apply with a manager nothing is unexpected, no pipeline is missing, and the check says "match" if and only if no assignment id is used for two packages |
| `HostConvergence.NoDriftWithoutManager` | src/sdk/admin/planning.ts:394-448 | without a manager it says "match" if and only if no assignment brings a protocol package |
| `HostConvergence.DrainTimersKeepTheSummary` | src/runtime/control/service-module-manager.ts:276-283 | drain timers firing after the apply do not change what the host reports |
| `HostConvergence.FailedApplyKeeps` | src/runtime/control/runtime-host-adapter.ts:124-186 | an apply that throws keeps recorded and last desired state, and the whole host if building or preparing threw |
| `HostConvergence.RecordedExactly` | src/runtime/control/runtime-host-adapter.ts:159-186 | after a normal apply every assignment is recorded active, except HTTP ones without an executable and service modules without a manager, which are failed |
| `RuntimeHostAdapter.BuildConfigFromDesiredState` | src/runtime/control/runtime-host-adapter.ts:272-428 | the loop computes exactly the specified pipelines and recorded states, or throws |
| `RuntimeHostAdapter.Adapter.ApplyDesiredHostState` | src/runtime/control/runtime-host-adapter.ts:124-186 | in place, exactly the specified state change over the shared manager, under the manager's own proviso; tells whether it throws |
| `RuntimeHostAdapter.Adapter.ListActiveProtocolPackages` | src/runtime/control/service-module-manager.ts:148-160 | lists each active module once, ordered by package and then assignment |
| `RuntimeHostAdapter.Adapter.BuildRuntimeSummaryView` | src/runtime/control/runtime-host-adapter.ts:202-205 | the reported summary lists exactly the configured pipelines and the active packages, both sorted |

## Left out

- Sockets, HTTP proxying, streaming bodies, header rewriting, the upstream WebSocket bridge: I/O around unseen runtimes; the egress socket is an arbitrary sequence of answers.
- Artifact staging, module loading, package installs, digests, the configuration file watcher: staging is an oracle that yields a module or entry, or throws.
- Schemas, JSON and envelope encoding: the model starts from typed values, with the constraints the wire schema imposes on rumors.
- Authentication: whether a connection's auth context is valid is part of each delivery call.
- Logging, metrics, trace ids, `updatedAt`, `reportedByNodeId`, `preparedAt` and similar payload times: no effect on the properties.
- Composite string keys: registry keys and package ids are tuples, so collisions between parts that contain `:` or `@` are not modelled. Pipeline ids are the real joined strings.
- Empty assignment ids: the duplicate-owner check of `prepareAssignments` skips an empty owner id, which the wire schema excludes; the model does not skip it.
- UTF-16: characters stand for code units in the hash, and the byte length of a message is a parameter.
- `localeCompare` is any total preorder on strings. Order independence is proved when it tells the ids apart; the platform's sort is taken as the stable one its standard prescribes.
- Floating point: replica counts and batch sizes cover NaN, infinities, fractions and negatives through a number datatype; times are integers.
- URI decoding and regular expression engines: the decoder is a parameter, and the route expression is specified by what it matches.
- The request method in route lookup is taken as already upper-cased.
- Middleware execution: the model says which middleware runs and in what order, not what `next` does inside it.
- Deployment instances of serve modules and handlers named as methods of them.
- Probes, pending requests, channel set-up and the rumor broadcast transport in the cluster network: they reach the store only as alive, suspect, disconnect and channel events.
- User callbacks, listeners and waiters that call back into the client while it emits an event; `waitForResult` listeners.
- The pending-handle-ack table of the WebSocket handler, heartbeats and shutdown draining.
- `assignmentStates` inside the service-module manager: failures are not recorded there, since the adapter discards the recorded states of an apply that throws.
- A drain timer is identified by the apply call that started it and the assignment it belongs to.
- Disposal of stores, networks and managers.
- The drift check with a `deploymentId` query, its rollup and the other read models: they filter ids by substring and would add easy members.
- Several hosts in one drift check: the check is modelled for one host; the source maps it over the sorted host ids.
- The topology store's `setTopology` call during an apply.
- Command-line, bootstrap, benchmark and release scripts, demos and the `experiment/` tree.
- ServiceModuleManager.Manager.ApplyAssignments: when two draining modules share a slot, which only an apply that failed half-way can bring about, which of them the source evicts first depends on insertion order, and the exact new state is not promised.
- RuntimeHostAdapter.Adapter.ApplyDesiredHostState: the same proviso.
- Overlapping calls of `applyDesiredHostState` on one host: they are taken one at a time.
- Deployment ids of active packages: the summary's second sort is by package and assignment only.
- ServeMounting.MountedRouteExactly: with `MountedPrefixExactly` and the theorems on text and middleware chains it is about bases without a trailing slash; what a mount at any other base answers follows from `MountedPattern` and `MountedPrefixText`.
- The enqueue of one call on a connection listed twice among its targets behaves the same both times in `ClusterDelivery`; in `ClusterInterleaving` each check and enqueue is separate.
- An authentication check that fails with an error is treated like an enqueue that throws.
- ServiceModuleRuns.RegistryInStep: a run may contain failing preparations but no apply that steals a slot; what one of those does is `TheftBreaks`.
- Gossip.ConvergeExactly: starts from stores without an entry for the peer; from entries learnt by rumor convergence is `StoresConverge`, and entries held by a local verdict refuse rumors of their own incarnation, so they need not agree.
- Last-alive times in gossip: they depend on the order of arrival (`Gossip.LastAliveDependsOnOrder`), and no condition under which they agree is given.
- ClusterDelivery.AtMostOneCopy: about serialised calls; interleaved ones are the subject of `ClusterInterleaving`.
- PendingDeliveries.DeliveriesSound: claims write-once for the handle-ack stage only; a late receive-ack overwrites a receive-ack timeout in the source.
