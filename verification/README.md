# A verified model of the mesh hub

The hub keeps a mesh of nodes reachable: it floods originator messages (OGMs) over UDP and picks
routes from what it hears, gossips its tables to other hubs, queues bundles for nodes that are away,
and lets each hub's admin decide which app versions are banned there. This project models that core
and proves what it promises over every message, every run and every interleaving. Check it with
`dafny verify dfyconfig.toml`.

## How it is organised

State that the source updates in place is a class here (`Registry.Registry`, `OgmEngine.Engine`,
`BanList.BanStore`, `AppPresence.PresenceStore`, `SyncEngine.Engine`, `DtnQueue.Store`,
`DtnEngine.Engine`, `DaemonApi.Server`, `AuthLockout.Store`). Each method is proved against a function
on values, and the theorems are about runs of those functions. The main state machines are:

- **Flooding and routes** (`OgmHub`, `OgmHubFacts`, `OgmNetwork`, `OgmPaths`, `OgmFlood`, `OgmConvergence`,
  `OgmTtl`, `OgmDeadEnd`, `OgmHellos`, `OgmSweeps`, `OgmLoops`, `OgmLinks`, `RouteOffers`, `OgmAlternates`,
  `OgmEviction`, `OgmEngine`): any number of hubs, a wire that loses, reorders
  and duplicates, Hellos, stale failovers at any moment, other writers of the node table. Packets carry no
  extra fields: the path that backs a route is recovered from an invariant on the hubs' duplicate filters.
- **Gossip** (`Lww`, `BanList`, `AppPresence`, `Gossip`, `Exchange`, `Epidemic`, `SyncEngine`): every gossiped
  table is a last-writer-wins table; two hubs that hear each other meet, and so does any number of hubs.
- **Ban governance** (`Governance`): admins propose and decide, hubs sign and gossip, notices arrive any
  number of times in any order.
- **Store and forward** (`DtnQueue`, `DtnRuns`, `DtnRetries`, `DtnProgress`, `DtnSolo`, `DtnSelf`, `DtnEngine`, `DaemonApi`):
  passes over the queue interleave statement by statement, because the ticker and a route change both start
  one.
- **Node status** (`StatusHistory`) and **login lockout** (`AuthLockout`): small state machines.

SQL tables are maps, node, ban and bundle ids are numbers, times are whole milliseconds, floats are
reals, and `uint32` counters wrap explicitly. Clocks, random ids, routing lookups and password checks
are parameters. A Hello and an OGM share their first two wire fields, so every datagram decodes as an OGM:
that one fact of the codec is built into the model (`OgmHub.DecodeOgm`).

## What the model shows about the code

Most promises hold as stated. These do not; each comes with an input on which it fails and with the
condition under which it holds.

- `handlePacket` tries OGM first, so a Hello is taken as an OGM numbered with the time in milliseconds.
  Latency is never measured, and whoever took a Hello drops the sender's OGMs until the sender has originated
  as many (`HelloBlocks`, `HelloSilencesOrigin`); beyond the neighbours nothing is heard of it at all
  (`MeshStaysDeaf`; on a line of three hubs, `FarHubHearsNothing`, `HelloBreaksConvergence`).
- The duplicate filter keeps the first copy of an OGM, not the one with most time to live: a hub well within the
  TTL can be missed with nothing lost and no Hello (`DetourHidesTheMesh`). A TTL that covers the longest loop-free
  path is enough (`CoveredFloodReachesExactly`), and no TTL reaches further than TTL+1 links
  (`NobodyHearsFurther`). `FloodReachesExactly` says, for any TTL, exactly when the latest OGM that was not lost has
  reached every hub: its Hellos and the hubs that got it with no time to live left are all that matters.
- `failoverRoutes` re-installs an alternate even over a healthy route, so a sweep over two silent nodes can
  leave a hub without a route to a live neighbour (`HealthyRouteLost`); `SweepKeepsExactly` says exactly which
  destinations keep one. When a destination itself dies, two hubs can be left routing to it through each other
  (`DeadHubLoops`); `MutualHopsExactly` says exactly when.
- `maybeUpsertRoute` lists a repeated offer as an alternate even if it comes through the very neighbour that is routed
  through. With four neighbours to a destination that pushes one of them out, and a hub can end up without a route
  although a neighbour has one (`FourthNeighbourIsForgotten`). Every neighbour that offered a route stays stored
  exactly while no offer meets the condition `Evicts` (`HopsStayExactly`), which with up to three neighbours never
  happens (`ThreeHopsAreKept`).
- A node's location survives gossip exactly if it is absent, or complete and not 0, 0: half a location arrives with
  a zero added, and a node at 0, 0 arrives with none (`NodeTravelsExactly`).
- `Better` is not transitive (`BetterCycles`); `BetterComposesExactly` says when it is, and what is left over
  whole runs of offers is a bounded drift (`InstalledIsNearlyCheapest`).
- A ban range `p.*` covers exactly the versions that start with `p`, dot or no dot (`DotStarIgnoresTheDot`): a
  ban on 1.* covers 10.2 (`BanOnOneCoversTen`).
- `Propose` normalises an empty version range and refuses an empty app id, `MergeGossipProposal` on a known id
  does neither but needs a signature: repeating and swapping records is harmless exactly under the conditions
  of `RepeatIsHarmlessExactly` and `SwapIsHarmlessExactly`, and not for the records of `RepeatChangesTheBan` and
  `SwapChangesTheBan`.
- The Monitor never sets a ban id, so all its proposals share the id zero. One gossip message then turns a ban
  an admin agreed to into a ban on another app (`CollidingIdsSwitchTheBan`). `AgreementStandsExactly` is the
  exact condition for a ban to go on meaning what it meant, and a hub can check it before merging.
- `deliverPending` asks for a route before it looks whether a bundle is for this hub, and no hub has a route to
  itself (`NoRouteToSelf`): self-addressed bundles gather retries until they expire and are never delivered
  (`HubNeverDeliversToItself`, `SelfBundlesAreStuck`). `LocalDeliveryExactly` is the exact condition for
  delivery. Were there such a route, passes that run one at a time would deliver each bundle exactly once
  (`ExactlyOnePlace`), and overlapping passes could deliver it twice (`OverlappingPassesDeliverTwice`).
- Two hubs that exchange messages end with equal app presence exactly when neither hides, because of a ban,
  something that is news to the other (`PresenceConvergesExactly`; it fails in `BanKeepsPresenceApart`).

## Model

The table names the theorems and the operations with branches or loops. One-line table operations (a lookup, a
delete, a counter) are specified in the code and have no row of their own.

| member | source | states |
|---|---|---|
| `OgmPaths.RoutesAreBacked` | hub/internal/ogmengine/ogmengine.go:263-347 | in every reachable network state each table route and alternate is witnessed by a path of exactly its hop count in peer links, from destination to hub, no hub twice, entering from the next hop; so the next hop is a real neighbour, neither it nor the destination is the hub itself, and hops are at most TTL+1 and hubs−1 |
| `OgmPaths.TtlNeverWraps` | hub/internal/ogmengine/ogmengine.go:157-191 | every packet in flight has ttl + hop count at most its origin's TTL, equal for true OGMs; the unsigned decrement and increment never wrap |
| `OgmPaths.RoutesAreMeasured` | hub/internal/ogmengine/ogmengine.go:311-325 | every stored route has TQ in [0,1], at most 0.85 beyond one hop, latency 0, and a cost between 10 per hop and 10 per hop plus 40 |
| `OgmPaths.AlternatesStayShort` | hub/internal/ogmengine/ogmengine.go:409-423 | in every reachable state an alternates list has at most 3 entries, distinct next hops, and the destination it is filed under |
| `OgmPaths.NextKeepsInv` | hub/internal/ogmengine/ogmengine.go:263-331 | every step, deliveries, losses, duplicates, Hellos and failovers included, keeps the invariant that all routes and packets are backed by loop-free trails |
| `OgmPaths.AcceptorIsFresh` | hub/internal/ogmengine/ogmengine.go:284-292 | a hub that accepts a message is not among the hubs the message passed through: the sequence filter alone prevents loops |
| `OgmPaths.CreditedIsSender` | hub/internal/ogmengine/ogmengine.go:333-347 | the forwarder a message is credited to is the hub that really sent it, whatever the address map says |
| `OgmPaths.NoRouteToSelf` | hub/internal/ogmengine/ogmengine.go:263-272 | no hub ever stores a route to itself |
| `OgmFlood.DeliverDecreases` | hub/internal/ogmengine/ogmengine.go:425-442 | with P the longest peer list, each delivery strictly lowers the sum of (2P+1)^ttl over packets in flight |
| `OgmFlood.FloodingDiesOut` | hub/internal/ogmengine/ogmengine.go:181-212 | without originations and duplication, all packets ever consumed plus the remaining potential stay within the potential at the start: flooding ends |
| `OgmFlood.FloodsAreBounded` | hub/internal/ogmengine/ogmengine.go:284-306 | over any run a hub floods one sequence number of another hub at most twice, none once it has recorded it, and its own at most once |
| `OgmFlood.PacketsPerSequence` | hub/internal/ogmengine/ogmengine.go:425-442 | at most one packet per peer of the origin and two per peer of every other hub are ever sent for one (origin, sequence), even under UDP duplication |
| `OgmFlood.AcceptedSequencesIncrease` | hub/internal/ogmengine/ogmengine.go:285-292 | between any two acceptances of an origin by a hub, however far apart, the sequence number strictly increases |
| `OgmFlood.HelloSilencesOrigin` | hub/internal/ogmengine/ogmengine.go:237-242 | once a Hello sent at T arrives, the receiver never again floods an OGM of that sender numbered T or less |
| `OgmConvergence.AcceptorPasses` | hub/internal/ogmengine/ogmengine.go:328-330 | a hub that accepts an OGM with time to live left has it on its way to every linked hub that lacks it, although floods skip the address it came from |
| `OgmConvergence.FloodReachesExactly` | hub/internal/ogmengine/ogmengine.go:263-331 | for any TTL, once an origin's latest OGM has settled without having been lost, whatever else was lost, pinged, duplicated or failed over: every hub reachable over links has exactly its number if and only if its count is past every Hello of its own that was delivered, and whoever is linked from a hub that got the OGM with its time to live used up has it from elsewhere (a Hello with the very same number aside) |
| `OgmConvergence.HelloLeavesBehind` | hub/internal/ogmengine/ogmengine.go:237-242 | the only-if half: a delivered Hello above the count leaves a neighbour out of date |
| `OgmConvergence.HeardIsRouted` | hub/internal/ogmengine/ogmengine.go:311-326 | over every run a hub has a route to every origin it has heard of, unless it ran a failover itself |
| `OgmConvergence.FloodReachesAlongChain` | hub/internal/ogmengine/ogmengine.go:263-331 | every chain of links without such a spent hub on the way carries the number to its end |
| `OgmTtl.CoveredFloodReachesExactly` | hub/internal/ogmengine/ogmengine.go:311-330 | if no loop-free path from the origin has more than TTL+1 links, all reachable hubs are up to date if and only if its count is past its delivered Hellos |
| `OgmTtl.SpentLinksBack` | hub/internal/ogmengine/ogmengine.go:328-330 | with such a TTL, a hub that gets an OGM with its time to live used up links only to hubs that have it already |
| `OgmTtl.SmallMeshIsCovered` | hub/internal/ogmengine/ogmengine.go:157-167 | a mesh of at most TTL+2 hubs meets that condition, whatever its links |
| `OgmTtl.NobodyHearsFurther` | hub/internal/ogmengine/ogmengine.go:437-441 | over every run no hub hears of an origin that has no loop-free path of at most TTL+1 links to it |
| `OgmDeadEnd.DetourHidesTheMesh` | hub/internal/ogmengine/ogmengine.go:285-292 | a run with nothing lost and no Hello in which a longer copy arrives first with its time to live used up, the direct one is dropped as a duplicate, and a hub two links away, within the TTL, hears nothing |
| `OgmHellos.HelloBlocks` | hub/internal/ogmengine/ogmengine.go:237-242 | a hub that took a Hello sent at T is out of date in every continuation until the sender has originated T OGMs |
| `OgmHellos.MeshStaysDeaf` | hub/internal/ogmengine/ogmengine.go:284-292 | once every neighbour of an origin has taken a Hello numbered T, no other hub hears anything of it, in any continuation, while its count is at most T |
| `OgmHellos.FarHubHearsNothing` | proto/ogm.proto:15-32 | on a line of three hubs, one Hello that overtakes the first OGM keeps the far hub from hearing of the first in every continuation up to T OGMs |
| `OgmHellos.HelloBreaksConvergence` | proto/ogm.proto:15-32 | an instance: the OGM arrives after the Hello, nothing is lost, all settles, the far hub is within reach and not up to date |
| `OgmSweeps.HealthyRouteLost` | hub/internal/ogmengine/ogmengine.go:607-625 | a run from the start after which exactly two silent nodes are stale by the node table; sweeping them leaves the hub without a route to a live, online direct neighbour |
| `OgmLoops.MutualHopsExactly` | hub/internal/ogmengine/ogmengine.go:601-628 | two hubs that fail over the same node route to a destination through each other exactly when each one's oldest surviving alternate, or its route if there is none, goes through the other |
| `OgmLoops.DeadHubLoops` | hub/internal/ogmengine/ogmengine.go:601-628 | a run from the start with nothing lost after which a third hub dies, both others find exactly it stale, and each ends up routing to it through the other |
| `OgmNetwork.SweepIsARun` | hub/internal/ogmengine/ogmengine.go:530-540 | the failover loop of a sweep is a run of the network model, so everything proved of runs holds of sweeps |
| `OgmHubFacts.AcceptedIsRebroadcast` | hub/internal/ogmengine/ogmengine.go:429-435 | the second duplicate filter never rejects what passed the first: with time to live left an accepted OGM is always flooded on |
| `OgmHubFacts.FloodsExactly` | hub/internal/ogmengine/ogmengine.go:263-331 | exactly what any message makes a hub send on: nothing, or one copy one hop further, preceded by a startup copy if its origin was not online; never back where it came from |
| `OgmLinks.LinksTellWhatWasHeard` | hub/internal/ogmengine/ogmengine.go:263-292 | after any messages, a neighbour's two counters are the foreign messages it sent and the hub's own that came back through it, read off the messages alone, in 32 bits |
| `OgmLinks.CreditsSender` | hub/internal/ogmengine/ogmengine.go:333-347 | a message is credited to the hub it names, else to its origin if it came straight, else to whoever last spoke from that address |
| `OgmLinks.AcceptedOffers` | hub/internal/ogmengine/ogmengine.go:311-325 | an accepted message offers one route: through its sender, one hop longer, latency per hop, and of quality echoes over receptions (this one included, never zero), cut off at 1, times 0.85 beyond one hop |
| `OgmLinks.LinksCountDeliveries` | hub/internal/ogmengine/ogmengine.go:349-354 | on every run of a mesh, whatever UDP does, the counters of hub h for n are the deliveries from n to h of foreign messages and of own ones coming back |
| `OgmLinks.MeshOffers` | hub/internal/ogmengine/ogmengine.go:311-325 | so the quality of a route offered in a mesh is that share of the deliveries of the whole run |
| `OgmHubFacts.HandleOgmKeepsWf` | hub/internal/ogmengine/ogmengine.go:263-331 | handling any message keeps routes measured and filed under their destination, alternates short, and `rebroadcasted` at most `lastSeq` |
| `OgmHubFacts.MeasuredCost` | core/routing/routing.go:41-48 | a measured route costs between 10 per hop and 509.95 per hop plus 40 |
| `OgmHubFacts.OfferHolds` | hub/internal/ogmengine/ogmengine.go:365-407 | after an offer every stored route was stored before or is the offer |
| `OgmHubFacts.RecordsExactly` | hub/internal/ogmengine/ogmengine.go:263-330 | a message not accepted changes link counters only; an accepted one records its number, its origin as online and seen just now with a route, and nothing about any other node |
| `OgmHubFacts.SurvivorsInOrder` | hub/internal/ogmengine/ogmengine.go:604-616 | a failover leaves exactly the alternates around the stale node, in the order in which they were listed |
| `OgmHubFacts.FailoverExactly` | hub/internal/ogmengine/ogmengine.go:601-628 | after one failover exactly the destinations routed around the stale node or with an alternate around it have a route, and the first listed alternate around it becomes the route, even over a healthy one, which stays only if there is none |
| `OgmHubFacts.SweepClearsStaleHops` | hub/internal/ogmengine/ogmengine.go:530-540 | after a sweep no route or alternate uses any swept node |
| `OgmHubFacts.SweepKeepsExactly` | hub/internal/ogmengine/ogmengine.go:601-628 | exactly which destinations keep a route after a sweep: those with an alternate around all swept nodes, or a healthy route whose alternates all go through the first swept node |
| `OgmEngine.Engine.FloodOgm` | hub/internal/ogmengine/ogmengine.go:193-212 | sends to every resolvable peer but the excepted address, in order |
| `OgmEngine.Engine.BroadcastOnce` | hub/internal/ogmengine/ogmengine.go:157-167 | refines an ordinary origination of the network model, and keeps the invariant |
| `OgmEngine.Engine.StoreAlternate` | hub/internal/ogmengine/ogmengine.go:409-423 | an unlisted next hop is listed last, the latest two before it stay, and with fewer than three all do; a listed one changes nothing; no other destination changes |
| `OgmEngine.Engine.MaybeUpsertRoute` | hub/internal/ogmengine/ogmengine.go:365-407 | table and alternates together change as one route offer |
| `OgmEngine.Engine.MaybeRebroadcast` | hub/internal/ogmengine/ogmengine.go:425-442 | floods on at most once per origin and sequence, and records it |
| `OgmEngine.Engine.HandleOgm` | hub/internal/ogmengine/ogmengine.go:263-331 | state and datagrams are those of the network model's delivery, and the invariant is kept |
| `OgmEngine.Engine.HandlePacket` | hub/internal/ogmengine/ogmengine.go:237-247 | refines a delivery for OGMs and Hellos alike; latencies and pending Hellos never change |
| `OgmEngine.Engine.FailoverRoutes` | hub/internal/ogmengine/ogmengine.go:601-628 | whatever order the alternates map is visited in, the tables end as one failover, and the invariant is kept |
| `OgmEngine.Engine.StaleSweep` | hub/internal/ogmengine/ogmengine.go:530-540 | exactly the online nodes unheard since the cutoff become stale, and nothing stored goes through them any more |
| `OgmEngine.DatagramsArePosted` | hub/internal/ogmengine/ogmengine.go:193-212 | the datagrams the engine writes are exactly the packets the network model posts |
| `RouteOffers.OneOffer` | core/routing/routing.go:50-64 | right after an offer the installed route costs at most 0.001 more than it, and no more than before unless a near tie was replaced |
| `RouteOffers.DriftIsBounded` | hub/internal/ogmengine/ogmengine.go:365-407 | a run of offers raises the installed cost by at most 0.001 per near-tie replacement |
| `RouteOffers.InstalledIsNearlyCheapest` | hub/internal/ogmengine/ogmengine.go:365-407 | after any run of offers, the installed route costs at most 0.001·(1+k) more than any offer seen, k counting near-tie replacements since it |
| `RouteOffers.BetterCycles` | core/routing/routing.go:56-63 | three routes each better than the one before, the first better than the last |
| `RouteOffers.BetterComposesExactly` | core/routing/routing.go:50-64 | Better is transitive except in exactly two cases: two near ties that add up to a clear loss, and a near tie left over in which quality or hops decide the other way |
| `RouteOffers.BetterComposes` | core/routing/routing.go:50-64 | wherever near ties compose, Better does |
| `OgmAlternates.PushedAside` | hub/internal/ogmengine/ogmengine.go:409-423 | a route pushed aside is listed last unless its next hop is listed; fewer than three entries all stay, of three exactly the oldest goes; other destinations keep theirs |
| `OgmAlternates.OfferHops` | hub/internal/ogmengine/ogmengine.go:365-423 | one offer stores its next hop and drops none, or exactly the oldest alternate under the condition Evicts |
| `OgmAlternates.HopsStayExactly` | hub/internal/ogmengine/ogmengine.go:365-423 | over any run of offers every next hop ever offered stays stored if and only if no offer meets Evicts: three are listed, the route pushed aside goes through none of them, and the oldest is not the one routed through next |
| `OgmAlternates.ThreeHopsAreKept` | hub/internal/ogmengine/ogmengine.go:409-423 | with at most three next hops in all, every one stays stored |
| `OgmEviction.FourthNeighbourIsForgotten` | hub/internal/ogmengine/ogmengine.go:389-392 | a run of a six-hub mesh from the start, nothing lost and no Hello, after which one of four neighbours that offered a destination is forgotten, and the sweep of the other three leaves no route |
| `Routing.BetterIsAsymmetric` | core/routing/routing.go:50-64 | Better is irreflexive and asymmetric on real destinations |
| `Routing.BetterDecidesExactly` | core/routing/routing.go:50-64 | one of two routes is better unless they are a near tie of equal quality and length; a clear cost difference decides before quality, quality before length; any route beats none |
| `Routing.CostWeighs` | core/routing/routing.go:41-48 | a hop weighs as much as 200 ms or a quarter of the quality |
| `Routing.ComputeTQ` | core/routing/routing.go:26-39 | quality in [0,1], the exact ratio unless echoes outnumber receptions |
| `Routing.PathTQ` | core/routing/routing.go:66-73 | for qualities in [0,1] the product, never clamped, no better than the link or the rest |
| `Governance.HearKeepsOwnVerdict` | core/banlist/store.go:275-293 | applying gossip, however old or repeated, never adds, changes or removes a hub's own verdict |
| `Governance.OwnVerdictIsLastDecision` | core/banlist/store.go:119-133 | on every honest run a hub's own stored verdict is its admin's latest decision |
| `Governance.EnforcedOnlyByOwnAdmin` | core/banlist/store.go:231-249 | a hub enforces a ban only if its own admin's latest decision on that id is Agree, whatever others decide |
| `Governance.EnforcedExactly` | core/banlist/store.go:231-249 | both ways: a hub enforces a ban on an app version if and only if a proposal it holds names the app, covers the version as ranges are read, and its own admin's latest decision on it, taken while the hub knew it, is Agree |
| `Governance.ExactBanIsExact` | core/banlist/store.go:301-315 | a hub whose admin agreed to one ban on an app, on one version, enforces exactly that version of that app |
| `Governance.NeverAutoEnforced` | hub/internal/syncengine/syncengine.go:320-336 | a hub whose admin never agreed enforces nothing, whatever it hears |
| `Governance.CollidingIdsSwitchTheBan` | monitor/internal/datastore/datastore.go:863-890 | with the ids the Monitor produces, one signed proposal and one gossip message make a hub enforce a ban its admin never agreed to |
| `Governance.AgreementStandsExactly` | core/banlist/store.go:252-272 | from any moment on, a ban stands for the same app and range on a hub for the rest of the run if and only if the hub hears no signed record for it, not older, that bans something else |
| `Governance.EnforcedReadsAsAgreed` | core/banlist/store.go:231-249 | unless such a record was heard since the admin's last decision, an enforced ban reads as it did when the admin agreed to it |
| `Governance.EnforcedIsWhatWasAgreed` | core/banlist/store.go:231-249 | the same on every run in which no two proposals share an id and differ in app or range |
| `Epidemic.HubsHoldWhatTheyHeard` | hub/internal/syncengine/syncengine.go:132-338 | any number of hubs, messages lost, repeated and reordered: each holds, per key, the newest of the rows that the hubs it has heard of, directly or by relay, started with |
| `Epidemic.SameHeardSameTables` | hub/internal/syncengine/syncengine.go:132-338 | hubs that have heard of the same hubs hold the same nodes with the same last_seen, relay endpoints, proposals and verdicts, and the same app presence if nobody started with an Agree |
| `Exchange.ApplyIsJoin` | hub/internal/syncengine/syncengine.go:252-338 | applying a hub's message joins all its tables into one's own, except the presence rows its bans hide |
| `Exchange.ExchangeConverges` | hub/internal/syncengine/syncengine.go:132-338 | after two hubs apply each other's messages they hold the same nodes with the larger last_seen, the same relay endpoints, proposals and verdicts |
| `Exchange.PresenceConvergesExactly` | hub/internal/syncengine/syncengine.go:166-186 | and the same app presence exactly when neither hub's bans hide something that is news to the other |
| `Exchange.ReplyConverges` | hub/internal/syncengine/syncengine.go:132-338 | the same when the second hub answers only after applying the first message |
| `Exchange.BannedPresenceStaysHome` | hub/internal/syncengine/syncengine.go:171-185 | no message a hub builds carries presence of a version it enforces a ban on |
| `Exchange.BanKeepsPresenceApart` | hub/internal/syncengine/syncengine.go:171-185 | two hubs and a ban after whose exchange presence differs |
| `Gossip.ApplyNodesIsLww` | hub/internal/syncengine/syncengine.go:252-338 | any list of node records leaves, per node, the largest last_seen |
| `Gossip.ApplyRelaysIsLww` | hub/internal/registry/registry.go:500-523 | any list of relay records merges last-writer-wins, those without endpoint left out |
| `Gossip.ApplyAppsIsLww` | core/apppresence/store.go:176-194 | any list of presence records merges last-writer-wins, those without app id left out |
| `Gossip.ApplyProposalsIsLww` | core/banlist/store.go:252-272 | any list of complete proposals merges last-writer-wins |
| `Gossip.ApplyVerdictsIsLww` | core/banlist/store.go:275-293 | any list of verdicts merges last-writer-wins, those on unknown bans left out |
| `Gossip.AppsOrderIrrelevant` | core/apppresence/store.go:176-194 | presence records may come in any order, any number of times |
| `Gossip.ProposalsOrderIrrelevant` | core/banlist/store.go:252-272 | complete proposals may come in any order, any number of times |
| `Gossip.VerdictsOrderIrrelevant` | core/banlist/store.go:275-293 | verdicts may come in any order, any number of times |
| `Gossip.RelaysOrderIrrelevant` | hub/internal/registry/registry.go:500-523 | relay records may come in any order, any number of times |
| `Gossip.ApplyStatusesIsLww` | hub/internal/registry/registry.go:526-559 | the status column merges last-writer-wins by last_seen |
| `Gossip.LocationSwapsExactly` | hub/internal/registry/registry.go:549-557 | two newer records about a node commute exactly when the newer brings a location, or the older brings none or the stored one |
| `Gossip.NodeTravelsExactly` | hub/internal/syncengine/syncengine.go:138-152 | times and status of a row survive encoding and decoding always, the whole row exactly if its location is absent, or complete and not 0, 0 |
| `Gossip.NodeIsLearned` | hub/internal/syncengine/syncengine.go:252-275 | what a hub knows of a node after applying another hub's message: what travels if it knew nothing; the newer status, time and location, and its own first_seen, if it knew it |
| `Gossip.FirstSeenIsKept` | hub/internal/registry/registry.go:526-559 | any list of records leaves first_seen of a known node alone and gives a new one that of its first record |
| `Lww.MergeAllIsNewest` | core/apppresence/store.go:176-194 | merging any list of records leaves, per key, a row that was offered and than which none offered is newer; a key is there exactly when something was offered |
| `Lww.OrderIsIrrelevant` | core/apppresence/store.go:176-194 | if key and timestamp fix content, neither order nor repetition nor the tie rule matters |
| `Lww.ShownTablesMeetExactly` | hub/internal/syncengine/syncengine.go:166-186 | two tables that take in what the other shows become equal exactly when neither hides a row newer than the other's |
| `BanList.RangeCoversExactly` | core/banlist/store.go:301-315 | space around it aside, "" and "*" cover everything, "p*", "p.x" and "p.*" exactly the versions that start with p, and any other range exactly that version |
| `BanList.RangeHasForm` | core/banlist/store.go:301-315 | every range reads in one of these ways |
| `BanList.TrimSpaceIsCore` | core/banlist/store.go:303-303 | trimming leaves the text with no space at either end, and all that is cut off is space |
| `BanList.DotStarIgnoresTheDot` | core/banlist/store.go:302-315 | a range p.* covers a version exactly when the version starts with p, leading space and a final ".x" of p aside |
| `BanList.RepeatIsHarmlessExactly` | core/banlist/store.go:252-272 | merging a record twice equals merging it once exactly when it was known, names no app, has a range, or is unsigned |
| `BanList.SwapIsHarmlessExactly` | core/banlist/store.go:252-272 | two records for one ban, known or new, with any timestamps, commute exactly under the condition Swaps; for a known ban that is unless both overwrite it with equal timestamps and differ |
| `BanList.BanStore.Propose` | core/banlist/store.go:58-83 | inserts with range "*" for none; refused for an empty app id or a known ban id, leaving the tables alone |
| `BanList.BanStore.ListProposals` | core/banlist/store.go:92-102 | every proposal once, newest first |
| `BanList.BanStore.SetVerdict` | core/banlist/store.go:119-133 | the hub's verdict is replaced, refused exactly when the ban is unknown |
| `BanList.BanStore.IsLocallyEnforced` | core/banlist/store.go:231-249 | true exactly when some ban on the app covers the version, as ranges are read, and this hub's own verdict on it is Agree |
| `BanList.BanStore.MergeGossipProposal` | core/banlist/store.go:252-272 | the merge, exactly when it reports a change (a refused insert too), and exactly when it is refused (no app id on insert, no signature on update) |
| `BanList.BanStore.MergeGossipVerdict` | core/banlist/store.go:275-293 | the merge, exactly when it reports a change (a new or strictly newer verdict), and exactly when the foreign key refuses it |
| `BanList.RepeatChangesTheBan` | core/banlist/store.go:252-272 | a signed record with an empty range: the second merge changes the stored range |
| `BanList.SwapChangesTheBan` | core/banlist/store.go:252-272 | two records whose order decides what is stored |
| `BanList.MergeChangesScopeExactly` | core/banlist/store.go:252-272 | merging changes what a known ban stands for exactly when the record is signed, not older, and bans something else |
| `AppPresence.PresenceStore.List` | core/apppresence/store.go:69-100 | every row once, newest first |
| `AppPresence.PresenceStore.DiscoverPeers` | core/apppresence/store.go:135-153 | exactly the nodes that run a version of the app the constraint asks for, each once |
| `AppPresence.MatchesExactly` | core/apppresence/store.go:196-204 | a constraint asks for anything if it is blank or "*", else for exactly that version, space around it aside |
| `AppPresence.ConstraintIsRangeExactly` | core/apppresence/store.go:196-204 | a constraint and a ban range of the same text cover the same versions exactly unless the text is a prefix pattern |
| `AppPresence.PresenceStore.MergeGossip` | core/apppresence/store.go:176-194 | the merge, exactly when it reports a change, and exactly when it is refused |
| `SyncEngine.Engine.BuildMessage` | hub/internal/syncengine/syncengine.go:132-217 | the message lists exactly the hub's tables, presence of banned versions left out |
| `SyncEngine.Engine.BuildPresence` | hub/internal/syncengine/syncengine.go:166-186 | exactly the presence rows whose version no enforced ban covers |
| `SyncEngine.Engine.Receive` | hub/internal/syncengine/syncengine.go:237-248 | applies a message of another hub and ignores one's own |
| `SyncEngine.Engine.Apply` | hub/internal/syncengine/syncengine.go:252-338 | the record-by-record loops come to one application of the message |
| `DtnRuns.BundlesAreAccountedFor` | hub/internal/dtnengine/dtnengine.go:122-161 | under every interleaving of passes each bundle is queued, unchanged but for its retry count, or was removed exactly once |
| `DtnRuns.RemovalsAreJustified` | hub/internal/dtnengine/dtnengine.go:130-161 | expiry strikes at or after the deadline; a pass removes only what it saw online with a route, and a self-addressed bundle only after handing it over |
| `DtnRuns.ReceivedInOrder` | hub/internal/daemonapi/daemonapi.go:256-263 | what apps received is, in order, a prefix of what was delivered locally, and the rest is the inbox |
| `DtnRetries.RetriesAreFailedPasses` | core/dtn/store.go:105-111 | under every interleaving the retry count of a queued bundle is exactly the number of different passes that failed to dequeue it |
| `DtnProgress.SightedBundlesLeave` | hub/internal/dtnengine/dtnengine.go:130-161 | under every interleaving a bundle whose destination a pass saw online with a route, and which it handed over if it is for this hub, is out of the queue once that pass has written its decision |
| `DtnProgress.DecidesExactly` | hub/internal/dtnengine/dtnengine.go:130-161 | a pass decides to delete a bundle exactly if its destination was seen online, has a route, and the local deliverer takes it if it is for this hub |
| `DtnSolo.ExactlyOnePlace` | hub/internal/dtnengine/dtnengine.go:130-161 | with one pass at a time, any routing table and a deliverer, every self-addressed bundle is in exactly one of queue, expired, or once among the payloads waiting or received |
| `DtnSolo.GoneIsDelivered` | hub/internal/dtnengine/dtnengine.go:151-160 | a self-addressed bundle no longer queued expired or was delivered, under every interleaving |
| `DtnSolo.OverlappingPassesDeliverTwice` | hub/internal/dtnengine/dtnengine.go:103-128 | given a route to self, a run in which ticker and route change overlap and the inbox gets one bundle twice |
| `DtnSelf.DeliveriesAreHandOvers` | hub/internal/dtnengine/dtnengine.go:144-160 | on every run a bundle is delivered locally exactly as often as a pass decides on it with this hub online, routed to itself and the deliverer willing |
| `DtnSelf.SelfBundlesAreStuck` | hub/internal/dtnengine/dtnengine.go:144-156 | if no pass finds a route to this hub, every self-addressed bundle is queued or expired and none is delivered |
| `DtnSelf.HubNeverDeliversToItself` | hub/internal/dtnengine/dtnengine.go:144-156 | with the routes of any reachable mesh a pass delivers nothing locally and gives each self-addressed bundle a retry |
| `DtnEngine.Engine.Enqueue` | hub/internal/dtnengine/dtnengine.go:92-99 | the bundle is queued with the configured lifetime and the new depth published; a used id changes neither |
| `DtnEngine.Engine.DeliverPending` | hub/internal/dtnengine/dtnengine.go:130-161 | every live bundle is handled once; local payloads reach the inbox soonest deadline first |
| `DtnEngine.Engine.ProcessOnce` | hub/internal/dtnengine/dtnengine.go:122-128 | what is left was live, got exactly one more retry, and could not leave; local payloads are in the inbox, soonest deadline first; the depth is published |
| `DtnEngine.PassIsARun` | hub/internal/dtnengine/dtnengine.go:130-161 | an uninterrupted pass is one of the runs of the interleaving model, with the same queue, inbox and log |
| `DtnEngine.LocalDeliveryExactly` | hub/internal/dtnengine/dtnengine.go:144-156 | a pass delivers all self-addressed payloads it lists, in order, exactly when this hub is online, has a route to itself and the deliverer takes them; otherwise none |
| `DtnEngine.ProcessOnceIsARun` | hub/internal/dtnengine/dtnengine.go:122-161 | so is the whole of processOnce, sweep and listing included |
| `DtnQueue.Store.List` | core/dtn/store.go:56-77 | exactly the unexpired bundles, each once, soonest deadline first |
| `DtnQueue.Store.ExpireBefore` | core/dtn/store.go:86-92 | exactly the bundles at or past their deadline go, and the count says how many |
| `DaemonApi.Server.DeliverLocal` | hub/internal/daemonapi/daemonapi.go:137-146 | appends to this hub's inbox, refused for any other destination |
| `DaemonApi.Server.HandleRegister` | hub/internal/daemonapi/daemonapi.go:148-203 | succeeds exactly for a named app whose version no enforced ban covers; a refusal leaves no trace |
| `DaemonApi.Server.HandleReceive` | hub/internal/daemonapi/daemonapi.go:246-271 | pops the oldest payload of the session's node; an empty payload is popped but answered as none |
| `DaemonApi.Server.HandleDiscoverPeers` | hub/internal/daemonapi/daemonapi.go:348-389 | exactly the nodes whose recorded version meets the constraint and is not enforced, each once |
| `Registry.Registry.UpsertSeen` | hub/internal/registry/registry.go:71-107 | the node is online with last_seen at that time, first_seen and location kept if known; every other row stays; a change is reported exactly when it was not online |
| `Registry.Registry.MarkStaleBefore` | hub/internal/registry/registry.go:143-185 | exactly the online nodes last seen before the cutoff turn stale, each reported once, and nothing else changes |
| `Registry.Registry.UpsertGossipRelay` | hub/internal/registry/registry.go:500-523 | a strictly newer verification replaces the endpoint; the result says whether |
| `Registry.Registry.MergeGossipNode` | hub/internal/registry/registry.go:526-559 | a strictly newer record replaces status and last_seen, keeps first_seen, and keeps the old location where it brings none |
| `StatusHistory.ReplayRebuildsStatus` | hub/internal/registry/registry.go:71-107 | replaying the transitions a run reported rebuilds the status column exactly |
| `StatusHistory.TransitionsAlternate` | hub/internal/registry/registry.go:143-185 | the transitions reported per node strictly alternate, starting away from the initial state, and the last one is its status |
| `StatusHistory.RowsTellTheirHistory` | hub/internal/registry/registry.go:71-185 | after any calls a node has a row once it was heard; first_seen is when that was, last_seen its newest sign of life since it was last heard, and it is online exactly if no sweep since then had a later cutoff |
| `StatusHistory.SweepReportsTheSilent` | hub/internal/registry/registry.go:143-185 | without position reports last_seen is when the node was last heard, and a sweep reports exactly the nodes still online that were last heard before its cutoff |
| `AuthLockout.AtMostFiveFailures` | monitor/internal/auth/auth.go:102-125 | for every run and client, any half-open 60-second window without a right password that was looked at holds at most five wrong ones that were |
| `AuthLockout.LoginFollowsHistory` | monitor/internal/auth/auth.go:102-125 | after any run a login is turned away exactly if the client's own failures bar it, and otherwise succeeds exactly with the right credentials |
| `AuthLockout.LockoutHasCause` | monitor/internal/auth/auth.go:210-233 | a client is locked exactly within 60 seconds of a fifth failure since its last success or lockout, read off the attempts alone |
| `AuthLockout.Store.Login` | monitor/internal/auth/auth.go:102-141 | locked, succeeded and failed each exactly when they should be; a success leaves no entry, a lock changes nothing, no other client is touched |

## Left out

- Restarts: the duplicate filters live in memory, so runs start from empty tables and no hub loses its state midway.
- Interleaving inside one delivery: a delivery is one atomic step, because one goroutine receives; failovers and other table writers come between deliveries.
- Wrap-around of the 64-bit OGM sequence number: sequence numbers are unbounded, so a mesh that sends 2^64 OGMs is outside the model.
- Rounding: qualities and costs are reals, so comparisons that depend on the last bit of a float are outside the model.
- Malformed or forged datagrams: packets are those the hubs send, with ids of full length; the codecs are reduced to the fact that a Hello decodes as an OGM.
- GPS fields, proximity sightings, trust, metrics, LAN segments and `hub_registry`: bookkeeping beside the routes that would add only easy members.
- OgmEngine.Engine.StaleSweep: models the node half of the sweep; marking hubs stale in `hub_registry` is left out with that table.
- SQL errors: a statement refuses only for a key, foreign-key or missing-signature conflict; driver errors are absent.
- Engines configured without app, ban or delivery stores: the optional parts are taken as present in the classes; `DtnRuns` also covers a missing deliverer.
- Publish and subscribe, sending, sniffing and event streams of the local API: channels and timing dominate.
- Sessions, password hashing, tokens and concurrent logins: logins run one at a time and a password check is an input.
- Noise, Ed25519, SQL migrations, tickers, the dashboard, Android code and the Monitor's views: libraries, wiring and user interface.
- Gossip.ApplyNodesIsLww: says nothing about first_seen and location, because the merge keeps the local first_seen and does not make locations converge (LocationSwapsExactly); status is ApplyStatusesIsLww.
- OgmConvergence.FloodReachesExactly: sets aside a Hello that carries the very number of the latest OGM; its receiver counts as up to date although it did not pass the OGM on.
- DtnSolo.ExactlyOnePlace: except between handing a bundle over and deleting it, when it is in both places.
