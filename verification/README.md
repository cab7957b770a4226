# Corvus in Dafny

A model of the engines inside Corvus, a network scanner that keeps what it sees as a time series, and
proofs of what those engines keep to over whole runs. The Go code is the authority throughout.

## What is modelled

- **Temporal store, anomaly engine, query engine** (`Buckets`, `TemporalStore`, `Anomaly`, `AnomalyRuns`,
  `AnomalyRaces`, `AnomalyCrossings`, `AnomalyScans`, `AnomalyEvents`, `Query`, `QueryRows`, `Stack`). At the
  bottom, ordered buckets of byte-string keys read by cursors; on top of them scans that write observations and
  close what they did not see; on top of those, queries.
  The main results: the stream of events replays to exactly the open endpoints of the store; a finished
  scan leaves open exactly what it saw; a query answers exactly what the event stream says. `AnomalyEvents` and
  `QueryRows` say what single events, alerts and rows are and in which order they come. Scans that
  share a store stay on course for this exactly when none writes on a reading another has made stale and
  none sends a change of a port before an earlier one has been sent.
- **Gossip mesh** (`MeshNode`, `MeshNet`, `MeshFlood`, `MeshCoverage`, `MeshSends`, `MeshMiss`). A node with
  its peer and de-duplication tables, and a network in which packets are delayed, reordered and lost. The main results:
  flooding ends, with an explicit bound; every copy is genuine and its hops are accounted for; when
  copies are sent in the order in which they fall due and arrive in the order sent, a message reaches exactly
  the nodes within four links; in any order it reaches exactly the peers of nodes that still had hops to
  spare, and a concrete mesh shows that order of arrival alone does not give more.
- **Scan worker pool** (`ScanPool`). Feeder, workers, two bounded channels, consumer and cancellation under
  every interleaving: nothing is probed twice or lost, jobs are taken up in the order of the list, nobody gets
  stuck, every run ends. `ScanJob` follows
  the results through the anomaly engine: what a job, cancelled or not, leaves in the store.
- **Job engine** (`JobEngine`, `JobRuns`). Status, eviction and the lossy fan-out of results to subscribers.
- **OSINT scoring and port order** (`Osint`, `PortOrder`). Three sources in any order give one profile; the
  in-place sort that consumes it yields the one stable descending order.
- **Address ranges and port lists** (`IpRange`, over `Bytes` and `Strings`; `TargetText` says which texts stand
  for which addresses and ports), the **rolling scan quota**
  (`Quota`) and the **store manager's double-checked locking** (`StoreManager`).

## How to read it

Code that changes state is a class whose methods are proved equal to functions on a value of that state;
the properties are lemmas about those functions. Goroutines become steps of a transition system whose
choices (who moves, which packet arrives, in which order a Go map is walked) are part of the step, so
a statement about all runs covers all schedules. Lines beginning `hide` keep definitions a proof does not
need from the solver.

Conventions: a Go string is a sequence of bytes (`Bytes.Text`), with ASCII case folding and whitespace;
mesh and job identifiers, which are only compared, are plain strings. `time.Time` is its signed 64-bit
count of nanoseconds, the zero time is `None`, and successive readings of `time.Now()` are a parameter. Scores are
reals: they are only compared. `float64`, JSON and bbolt's own storage are taken to be faithful.

Where code and prose differ the model follows the code:

- `docs/SYSTEM_DESIGN.md` and `docs/BUILD_GUIDE.md` describe hashicorp/memberlist, address iterators and
  RFC 3339 bucket keys. The code floods its own UDP messages, builds slices and keys buckets by eight
  big-endian bytes.
- The comment on `defaultTTL` (`internal/mesh/mesh.go:21`) reads as a bound of three hops. A broadcast leaves
  with a TTL of three and is still accepted with a TTL of zero, so it travels four links.
- `WriteAlert` (`internal/store/store.go:156`) keys an alert by time alone, so events of one time overwrite
  each other in the store although the sinks are sent them all.
- The comment on `SetUsageLogger` (`internal/engine/engine.go:122`) says the serve command calls it; nothing
  does, so the end of a scan is logged by nobody yet. The quota results cover both.

CIDR notation is that of section 3.1 of RFC 4632; keeping both addresses of a /31 agrees with section 2.1
of RFC 3021.

## Model

| member | source | states |
|---|---|---|
| Bytes.LessIsNumeric | internal/store/store.go:245 | comparing equally long keys byte by byte is comparing the big-endian numbers they denote |
| Bytes.LessIff | internal/store/store.go:245 | one key sorts before another exactly when it is a proper part of its front or has the smaller byte where they first differ |
| Bytes.EncodeValue | internal/store/store.go:326-330 | the big-endian bytes of a number denote that number again |
| Strings.ScanPortKeyRoundTrip | internal/query/engine.go:101-103 | scanning a stored `port/proto` key returns the port always, and the protocol exactly when it holds no whitespace |
| Strings.ScannedProtocol | internal/query/engine.go:101-103 | of a protocol with whitespace the first word is scanned, or nothing when a newline comes before it |
| Strings.ParseUintIff | pkg/iprange/iprange.go:127 | a text is read as a port exactly when it is that port in decimal behind any number of zeros |
| Strings.SameLowerIff | internal/query/engine.go:176 | lower-casing identifies texts exactly when they differ in the case of letters only |
| Strings.ContainsIff | internal/osint/dns.go:29 | a text contains another exactly when the other stands at one of its positions |
| Strings.TrimIs | pkg/iprange/iprange.go:18 | trimming takes blanks off both ends and leaves none there |
| Strings.SplitIs | pkg/iprange/iprange.go:17 | splitting takes a text apart at every separator and nowhere else |
| Strings.KeyOfPort80 | internal/store/store.go:336-338 | the key of port 80 over tcp, byte by byte |
| Strings.PortKeyInjective | internal/store/store.go:336-338 | two endpoints of a host share a key only if port and protocol agree |
| Buckets.GetPut | internal/store/store.go:67-82 | a put shows under its own key and changes no other |
| Buckets.LastPut | internal/store/store.go:103 | the cursor's last entry after a put is the new one unless a greater key exists |
| Buckets.Scan | internal/store/store.go:236-254 | the seek-and-step loop returns exactly the entries in range, in key order |
| Buckets.WindowsJoin | internal/store/store.go:236-254 | two ranges with no key between them read as their join |
| TemporalStore.TsKeyOrder | internal/store/store.go:325-330 | distinct times get distinct keys, and key order is time order exactly for two times on the same side of 1970 |
| TemporalStore.HistoryWritten | internal/store/store.go:61-84 | a write is a put into its own endpoint's history and leaves every other history alone |
| TemporalStore.LatestWritten | internal/store/store.go:86-113 | after a write the latest record is the written one unless a later one is stored; other endpoints keep theirs |
| TemporalStore.LatestIsNewestWrite | internal/store/store.go:61-113 | after any writes into an empty store the latest record is the last write at the greatest time of that endpoint, and absent only if it was never written |
| TemporalStore.OpenKeysDecode | internal/store/store.go:115-154 | decoding the listed keys gives each endpoint of the host whose latest record is open exactly once, and no other |
| TemporalStore.WindowIsTimeRange | internal/store/store.go:205-303 | a window holds exactly the entries with since <= time <= until, in strictly ascending time |
| TemporalStore.TimeWindowsJoin | internal/store/store.go:205-303 | adjacent time windows concatenate to the joined window |
| TemporalStore.AlertsKeepLastOfEachTime | internal/store/store.go:156-165 | of a sequence of alerts the store keeps, for each time, the last one |
| TemporalStore.Store.WriteState | internal/store/store.go:63-84 | keeps the store's invariant, puts the record into its endpoint's history and changes no other |
| TemporalStore.Store.ReadLatestState | internal/store/store.go:87-113 | returns the record of greatest time, or none exactly when nothing is stored |
| TemporalStore.Store.ReadOpenPorts | internal/store/store.go:116-154 | returns the keys whose latest record is open, in key order |
| TemporalStore.Store.ListHosts | internal/store/store.go:188-203 | returns every host key once, in order |
| TemporalStore.Store.ReadHistory | internal/store/store.go:207-260 | returns exactly the stored records between the bounds, ascending |
| TemporalStore.Store.WriteAlert | internal/store/store.go:157-165 | replaces the alert of that time and no other |
| TemporalStore.Store.ReadAlerts | internal/store/store.go:263-303 | returns exactly the stored alerts between the bounds, ascending |
| TemporalStore.Store.SetMeta | internal/store/store.go:168-172 | sets one value and no other |
| Anomaly.DiffKinds | internal/anomaly/engine.go:137-166 | new-port exactly on absent-or-closed to open and then alone; never port-closed; no kind twice; both records and the kind's severity on every event |
| Anomaly.DiffDrifts | internal/anomaly/engine.go:168-228 | each drift exactly when a known value became another known value, a latency spike exactly when a known time more than tripled |
| Anomaly.DiffOrder | internal/anomaly/engine.go:168-228 | drifts come in the order banner, version, certificate, latency |
| Anomaly.Engine.Process | internal/anomaly/engine.go:42-72 | the new state of store, seen keys, alerts and sinks after one result |
| Anomaly.Engine.Flush | internal/anomaly/engine.go:76-123 | the new state after closing unseen ports host by host |
| Anomaly.Engine.Dispatch | internal/anomaly/engine.go:125-134 | the event is both stored and sent |
| AnomalyRuns.ProcessKeepsSyncIff | internal/anomaly/engine.go:42-72 | one result leaves event stream and store in step exactly when, in time order, it is open or the port was not; out of order, exactly when it does not reopen a closed port |
| AnomalyRuns.FinishKeepsSyncIff | internal/anomaly/engine.go:42-72 | the same when other scans came between the read and the write: an open result in time order exactly when the port is still as open, or as closed, as it was read |
| AnomalyRuns.CloseKeepsSyncIff | internal/anomaly/engine.go:94-120 | writing a port off keeps event stream and store in step exactly when the port is still open |
| AnomalyRuns.EventsReplayToTheStore | internal/anomaly/engine.go:37-123 | over any run from an empty store, replaying new-port and port-closed gives exactly the open endpoints, and per endpoint the two strictly alternate, new-port first |
| AnomalyRuns.StoredAlertsAreLastOfTheirTime | internal/anomaly/engine.go:125-134 | in any run an event is kept in the store exactly when no later event has its time |
| AnomalyRaces.UndisturbedIsSequential | internal/anomaly/engine.go:42-123 | a read, a write and the sends with nothing in between are what one engine alone does |
| AnomalyRaces.WriteKeepsSyncIff | internal/anomaly/engine.go:46-62 | of scans sharing a store: with events in the order of their writes, a write keeps them in step with the store exactly when the openness read before it still holds |
| AnomalyRaces.SendKeepsCourseIff | internal/anomaly/engine.go:64-66 | a send keeps the stream, with the rest in the order of the writes, in step exactly when no earlier transition of its endpoint is still to be sent |
| AnomalyRaces.RacesKeepSyncIff | internal/engine/engine.go:200-206 | however reads, writes and sends of one user's scans interleave: the stream, with what is still to be sent, replays to the store and alternates after every step exactly when every write found the openness it had read and every send was in turn |
| AnomalyRaces.SentInOrderIff | internal/anomaly/engine.go:60-66 | with every write up to date, an endpoint with nothing left to send agrees with the store and alternates exactly when its transitions were sent in the order of their writes |
| AnomalyRaces.TakingTurnsKeepsSync | internal/engine/engine.go:200-206 | taking turns on each endpoint, from the read to the last send, is enough for both |
| AnomalyCrossings.TwoScansCanAnnounceTwice | internal/anomaly/engine.go:46-66 | two scans that both read a new port before either writes it announce it twice |
| AnomalyCrossings.SendsCanCross | internal/anomaly/engine.go:60-66 | with every write up to date the stream can still end as port-closed, new-port over a closed port, because a send came late |
| AnomalyCrossings.StaleWritesCanCancel | internal/anomaly/engine.go:46-66 | stale writes can cancel out in the stream, so its agreement with the store at the end does not tell that writes were up to date |
| AnomalyScans.HostPortInjective | internal/anomaly/engine.go:231-233 | the seen key names one endpoint, because addresses hold no slash |
| AnomalyScans.KeyOfSeenPort80 | internal/anomaly/engine.go:231-233 | the seen key of port 80 over tcp, byte by byte |
| AnomalyScans.FlushedIs | internal/anomaly/engine.go:76-123 | a flush closes exactly the open, unseen endpoints of the listed hosts, scanned ports or not, and leaves other hosts' histories alone |
| AnomalyScans.FlushAgain | internal/anomaly/engine.go:76-123 | flushing hosts a second time, in the same call or the next, changes nothing and sends nothing |
| AnomalyScans.ScanLeavesOpenWhatItSaw | internal/anomaly/engine.go:37-123 | after reset, open results and flush, what is open on a flushed host is what was open or seen and has a result with its lower-cased protocol; for lower-case protocols exactly what this scan saw |
| AnomalyEvents.ObservationsAlert | internal/anomaly/engine.go:60-66 | the alert one result leaves in the store at its time: new-port, else latency spike over certificate rotation over version drift over banner drift, else what was there |
| AnomalyEvents.FlushAccounts | internal/anomaly/engine.go:76-123 | a flush sends one port-closed event for each port it closes and no other, host by host and by rising keys, with the record last known and the bare closed record then stored, each at its own reading of the clock |
| ScanJob.OpenIffDelivered | internal/engine/engine.go:240-289 | after a job, cancelled or not, an endpoint of a target host is open exactly when the pool delivered it |
| ScanJob.StoreIsRightIff | internal/engine/engine.go:240-289 | a job leaves the truth about its hosts exactly when a result got through for every port that is open there |
| ScanJob.UncancelledIsRightIff | internal/engine/engine.go:240-289 | uncancelled, with truthful probes, exactly when every open port of the hosts is on the port list |
| ScanJob.CancelledAtOnce | internal/engine/engine.go:289 | a scan can be cancelled before it delivers anything; the flush then closes every endpoint of its hosts, which is right only if none has an open port |
| Query.Engine.MatchesConditions | internal/query/engine.go:159-198 | true exactly when every clause holds |
| Query.Engine.ResolveHosts | internal/query/engine.go:140-157 | all known hosts, or the text of the addresses the target stands for, or its error |
| Query.ResolvesOne | internal/query/engine.go:140-157 | that fixes the hosts |
| Query.Engine.Execute | internal/query/engine.go:78-137 | the answer of a plan over the stored buckets, skipping hosts whose text is no address, or the target's error |
| Query.ExecuteReturnsOpenRecent | internal/query/engine.go:78-137 | without an until time: exactly the open endpoints of the hosts whose latest record is recent enough and matches, each with that record |
| Query.LastOfOpenWindow | internal/query/engine.go:111-119 | the history lookup amounts to a time test on the latest record |
| Query.RowsDistinct | internal/query/engine.go:87-133 | distinct hosts give each endpoint at most one row |
| QueryRows.PortClause | internal/query/engine.go:166-173 | a port clause leaves exactly the rows of the port its value reads as, and all rows when it reads as none |
| QueryRows.PortClauseSelects | internal/query/engine.go:166-173 | the number of a port written in decimal leaves exactly the rows of that port |
| QueryRows.ServiceClause | internal/query/engine.go:175-178 | a service clause leaves exactly the rows whose service has that name up to the case of letters |
| QueryRows.BannerClause | internal/query/engine.go:180-183 | a banner clause leaves exactly the rows with the value somewhere in the banner up to the case of letters |
| QueryRows.OtherClauses | internal/query/engine.go:185-195 | the clauses "open" and "new-port" leave the rows of open records, an unknown clause all |
| QueryRows.RowsWithoutClauses | internal/query/engine.go:87-133 | without clauses: every open endpoint of the hosts with its latest record, or, from a since time on, with the latest of those in the window |
| QueryRows.RowsInOrder | internal/query/engine.go:87-133 | rows come host by host as given, and by rising keys within a host |
| QueryRows.AddressesInOrder | internal/query/engine.go:87-91 | exactly the texts that are addresses are searched, in their order |
| QueryRows.ResolvesIff | internal/query/engine.go:140-157 | a target that is not empty has hosts exactly when it stands for addresses: the texts of these, in their order |
| Query.AllHostsAreSearched | internal/query/engine.go:140-144 | a query without target leaves no open endpoint out |
| Query.OpenClausesMatterIff | internal/query/engine.go:185-195 | the "open" and "new-port" clauses change an open endpoint's row exactly when the last record between since and until was closed and meets the other clauses |
| Query.OpenClauseCanMatter | internal/query/engine.go:185-195 | an endpoint closed at 1 and open since 5, asked about up to 2: the clause drops its row |
| Query.OpenClausesNeverMatter | internal/query/engine.go:185-195 | without an until time they never change the answer |
| Stack.QueryAgreesWithEvents | internal/query/engine.go:78-137 | after any timely run of scans an unrestricted query lists exactly what replaying the events leaves open, once each |
| MeshNode.BackpressureKeepsForwarding | internal/mesh/mesh.go:235-245 | a full delivery queue costs the local copy and nothing else |
| MeshNode.Mesh.MarkSeen | internal/mesh/mesh.go:268-276 | reports whether the identifier was known and remembers it if not |
| MeshNode.Mesh.Forward | internal/mesh/mesh.go:250-265 | one copy to each peer not at the excepted address, in some order |
| MeshNode.Mesh.Broadcast | internal/mesh/mesh.go:119-131 | marks the identifier and sends a full-TTL copy to every peer |
| MeshNode.Mesh.HandleMsg | internal/mesh/mesh.go:207-247 | its own messages do nothing; any other refreshes its sender; a hello is answered by one hello to the sender, a heartbeat by nothing; a new share is remembered, queued while fewer than 64 wait, and with hops left passed on to every peer elsewhere with one hop less |
| MeshNode.Mesh.HeartbeatTick | internal/mesh/mesh.go:285-311 | a heartbeat to every peer, then only peers of the last two minutes and identifiers of the last five remain |
| MeshNode.AcceptancesAreSpaced | internal/mesh/mesh.go:230-232 | whatever a node is sent, two acceptances of one identifier are more than seenTTL apart with an expiry tick between them |
| MeshNode.SeenTableIs | internal/mesh/mesh.go:268-310 | the de-duplication table is exactly the identifiers noted and not expired since |
| MeshNode.PeerTableIs | internal/mesh/mesh.go:214-219 | the peer table is exactly the nodes heard from and not found stale since, at the address last heard from |
| MeshNode.BroadcastGoesTo | internal/mesh/mesh.go:217-219 | a broadcast goes to an address exactly when some node's last message came from there; a forwarded share moves its origin to the forwarder's address |
| MeshNet.RunsKeepInv | internal/mesh/mesh.go:119-313 | in every run no node lists itself, every share is an unaltered copy with its hops accounted for, no origin accepts or delivers its own |
| MeshNet.AcceptedWithinFourLinks | internal/mesh/mesh.go:20-22 | a message is accepted only one to four links from its origin |
| MeshNet.AcceptanceDelivers | internal/mesh/mesh.go:233-239 | an acceptance hands the origin's results to the consumer unless the queue is full |
| MeshNet.ConsumedInOrder | internal/mesh/mesh.go:144-147 | over any run the consumer gets the queued shares in the order in which they were queued |
| MeshNet.JoinIntroduces | internal/mesh/mesh.go:113-116 | after a join, the arrival of the hello and the arrival of its answer, each node lists the other at its own address |
| MeshNet.HeartbeatRefreshes | internal/mesh/mesh.go:285-297 | a heartbeat reaches every node the sender lists, which then lists the sender afresh, and is not answered |
| MeshFlood.StepCopies | internal/mesh/mesh.go:207-265 | how each step changes the copies of one message in flight, and where new ones join |
| MeshFlood.TakingSpends | internal/mesh/mesh.go:240-245 | every arrival or loss of a copy makes the copies in flight weigh strictly less |
| MeshFlood.BroadcastCopiesBounded | internal/mesh/mesh.go:119-131 | with at most n peers a table, all copies of a broadcast ever are at most n(1 + n + n^2 + n^3), even when nodes forget |
| MeshCoverage.CalmStep | internal/mesh/mesh.go:229-265 | every loss-free, non-forgetting step keeps each peer of an acceptor supplied |
| MeshCoverage.StepSourced | internal/mesh/mesh.go:229-265 | every copy and every acceptance comes from the origin or from a node that took the message with a hop more |
| MeshSends.ActIsStep | internal/mesh/mesh.go:250-265 | deciding whom to send to, with the sends still to come, does to the mesh and its packets what sending them at once does |
| MeshSends.SendsCanBeFused | internal/mesh/mesh.go:260-264 | however single sends are delayed and interleaved, the mesh ends as in a run that sends a forward's packets in one go, but for the order of packets on their way |
| MeshSends.EveryPeerIsReached | internal/mesh/mesh.go:240-265 | with sends and arrivals in any order, when no copy is left, a node has accepted exactly when the origin lists it or a node does that accepted with hops to spare |
| MeshSends.InOrderReachesExactlyFourLinks | internal/mesh/mesh.go:119-131 | when copies are sent in the order in which they fall due and arrive in the order sent, exactly the nodes within four links have accepted, with the hops their distance leaves |
| MeshMiss.ArrivalOrderIsNotEnough | internal/mesh/mesh.go:260-264 | a concrete mesh and run in which every copy arrives in the order sent and a node two links away is never reached, because one send came late |
| ScanPool.RunsKeepInv | internal/scanner/scanner.go:43-103 | under every schedule each job handed out and each open result is in exactly one place |
| ScanPool.ClosedOnceAndNeverSentAfter | internal/scanner/scanner.go:47-98 | no send reaches a closed channel, no channel is closed twice, both are closed at the end |
| ScanPool.NobodyIsStuck | internal/scanner/scanner.go:62-99 | until the pool has finished someone can move; after cancellation even without a consumer |
| ScanPool.EveryStepCounts | internal/scanner/scanner.go:62-99 | every step strictly lowers the work remaining |
| ScanPool.EveryRunEnds | internal/scanner/scanner.go:43-103 | no schedule is longer than six steps a job, one a worker and three more |
| ScanPool.FinishedPoolDelivers | internal/scanner/scanner.go:41-103 | uncancelled, each pair is probed as often as listed and delivered as often as found open; cancelled, never more |
| ScanPool.UncancelledScanIsExact | internal/scanner/scanner.go:41-103 | with truthful probes an uncancelled scan delivers exactly the open pairs, as a multiset |
| ScanPool.PairsAreDistinct | internal/scanner/scanner.go:87-97 | distinct hosts and ports list every pair once |
| ScanPool.PairAt | internal/scanner/scanner.go:84-97 | the list goes through the hosts as given and through all ports of a host, as given, before the next |
| ScanPool.ChannelsKeepOrder | internal/scanner/scanner.go:47-98 | under every schedule the jobs taken up, in order, and those waiting are the first of the list, and the results consumed and waiting are those sent, in order |
| ScanPool.TakenInOrder | internal/scanner/scanner.go:87-97 | what was taken up is always the first part of the list |
| ScanPool.CapacitiesAre | internal/scanner/scanner.go:31-60 | as many workers as configured or 2000; the feeder waits exactly when twice as many jobs wait, a worker exactly when as many results do |
| ScanPool.CancelledStartsNothing | internal/scanner/scanner.go:62-66 | once cancelled, a scan ends the probes under way, at most one a worker, and starts no other |
| ScanPool.LostAtMostOneEach | internal/scanner/scanner.go:62-80 | of the jobs and results workers have taken on, cancellation loses at most one a worker |
| ScanPool.Concurrency | internal/scanner/scanner.go:31-39 | the number of workers is positive whatever is configured |
| JobEngine.Engine.StartScan | internal/engine/engine.go:126-155 | accepts a request exactly when its target and its ports parse; then a running job with the numbers of both joins the others, and otherwise nothing changes |
| JobEngine.Engine.Subscribe | internal/engine/engine.go:171-178 | a fresh open channel joins the job's subscribers |
| JobEngine.Engine.Publish | internal/engine/engine.go:275-286 | counts the result and offers it to every subscriber without waiting |
| JobEngine.Engine.CleanUp | internal/engine/engine.go:187-198 | completes the job and leaves every other, closes its subscribers' channels and forgets them |
| JobEngine.Engine.EvictOld | internal/engine/engine.go:104-117 | exactly the jobs that run or started within the last hour remain, as they were |
| JobRuns.RunsKeepInv | internal/engine/engine.go:104-287 | every step of every run keeps jobs, channels and subscriber lists consistent |
| JobRuns.RunningJobsAreKept | internal/engine/engine.go:181-191 | a scan under way always finds its job running with its results counted, and nothing ever panics |
| JobRuns.ClosedExactlyOnce | internal/engine/engine.go:171-198 | a channel subscribed before clean-up is closed once by it, a later one never |
| JobRuns.SubscribersSeeAnOrderedPart | internal/engine/engine.go:275-286 | taken and waiting results are an in-order subsequence of those published since, and with the dropped ones account for all |
| JobRuns.DroppedExactlyWhenFull | internal/engine/engine.go:275-286 | a published result reaches every channel of the job but those in which a hundred results wait |
| JobRuns.ScansDoNotMix | internal/engine/engine.go:181-286 | what is done for one job leaves every other job, its subscribers and their channels alone |
| Osint.Profile.BoostIfHigher | internal/osint/predict.go:200-204 | the scores stay the pointwise maximum, with one contribution more |
| Osint.Profile.ScoreFromHostname | internal/osint/dns.go:26-82 | adds exactly the contributions of the matching rules, in whatever order the maps are walked |
| Osint.Profile.ReverseDnsSection | internal/osint/predict.go:45-50 | appends the names and adds their contributions |
| Osint.Profile.AsnSection | internal/osint/predict.go:64-72 | records the answer and adds the provider's contributions |
| Osint.Profile.ScoreCloudPorts | internal/osint/predict.go:164-182 | adds exactly the common and the provider's contributions |
| Osint.Profile.CtSection | internal/osint/predict.go:98-113 | skipping known names loses no contribution and no name; only names not listed yet are appended |
| Osint.Profile.ApplyDefaults | internal/osint/predict.go:185-198 | baselines only where nothing was scored |
| Osint.Profile.Predict | internal/osint/predict.go:24-124 | for every order of the three sections, the maximum of all contributions with defaults, and the union of all names |
| Osint.PredictionsAgree | internal/osint/predict.go:24-124 | equal answers give equal scores whatever the orders; a port nobody boosts has its default |
| Osint.NamesScoreIff | internal/osint/dns.go:26-82 | a name contributes exactly what the rules give whose keyword stands somewhere in its lower-cased text |
| Osint.NamelessHosts | internal/osint/predict.go:164-198 | the scores of a host without names, port by port, for each provider and for none |
| PortOrder.PrioritisePorts | internal/osint/predict.go:126-161 | a permutation of the ports, or the list itself without scores: higher scores first, ports with a positive score before all without one, and ports of no or the same score in the given order |
| PortOrder.Insert | internal/osint/predict.go:145-154 | moving one item down extends the sorted prefix |
| PortOrder.RankingMeans | internal/osint/predict.go:126-161 | scores never rise and equal scores keep the given order |
| PortOrder.RankingFavours | internal/osint/predict.go:126-161 | the same stated on the ports and the profile alone |
| PortOrder.OneOrder | internal/osint/predict.go:126-161 | there is only one such order |
| IpRange.NextValue | pkg/iprange/iprange.go:150-157 | the next address is the number plus one, zero at the top |
| IpRange.IncrementIP | pkg/iprange/iprange.go:150-157 | the carry loop turns the array into the next address |
| IpRange.After | pkg/iprange/iprange.go:159-169 | the byte loop compares the numbers |
| IpRange.ParseRange | pkg/iprange/iprange.go:71-94 | succeeds exactly for valid ends and a range that is empty, or holds at most 65536 addresses and stops short of the last one; lists them in order |
| IpRange.ConsecutiveIsUnique | pkg/iprange/iprange.go:86-93 | start and count determine the list |
| IpRange.MaskedValue | pkg/iprange/iprange.go:51-58 | masking drops a number to a multiple of the block size |
| IpRange.NetworkIs | pkg/iprange/iprange.go:58 | a network contains its block, but of the IPv4 addresses written in sixteen bytes only those of a network that starts at one |
| IpRange.LoopEndsIff | pkg/iprange/iprange.go:58-60 | counting from the base leaves the network eventually exactly when it is not all of IPv4 |
| IpRange.WholeBlockIff | pkg/iprange/iprange.go:58-60 | the whole block is counted exactly when it starts at an IPv4 address or holds none; otherwise counting stops at `::ffff:0:0` |
| IpRange.CutShort | pkg/iprange/iprange.go:58-60 | `::fffe:0:0/95` is listed only by half |
| IpRange.ParseCIDR | pkg/iprange/iprange.go:51-69 | the addresses counted, in order: for IPv4 the one address of a /32, both of a /31, and otherwise all but first and last |
| IpRange.Parse | pkg/iprange/iprange.go:15-49 | the addresses of the comma-separated parts in order, blank parts left out, or an error exactly when a part fails or no address is left |
| IpRange.CountableIff | pkg/iprange/iprange.go:51-60 | the only targets left out are those with a network that is all of IPv4 |
| IpRange.TargetMeansOne | pkg/iprange/iprange.go:15-94 | that fixes the outcome: a target stands for one list or for an error |
| IpRange.DedupIs | pkg/iprange/iprange.go:98-136 | deduplication keeps each value once |
| IpRange.DedupExtends | pkg/iprange/iprange.go:98-136 | first mentions keep their order |
| IpRange.ParsePorts | pkg/iprange/iprange.go:97-142 | every named port once in order of first mention, or an error exactly for a bad part, a backward range or no port |
| IpRange.PortListRoundTrip | pkg/iprange/iprange.go:97-142 | writing out a port list and parsing it gives it back without repetitions |
| TargetText.PartSays | pkg/iprange/iprange.go:101-134 | a part of a port list is accepted exactly when it is blank, one number, or two in rising order with a dash between, blanks around them; then it stands for every port from the first to the second |
| TargetText.PortListIff | pkg/iprange/iprange.go:97-142 | a port list is accepted exactly when all its parts are and some port is named; then it stands for their ports without repetitions |
| TargetText.PartStands | pkg/iprange/iprange.go:35-94 | a part of a target stands for a network when it has a slash, for an IPv4 range from the first end to the second when it has a dash only, and otherwise for one address, in four bytes when it can be; a blank part for nothing |
| TargetText.TargetIff | pkg/iprange/iprange.go:15-33 | a target stands for addresses exactly when all its parts do and some address is left: those of its parts, one after the other; otherwise it is refused |
| Quota.UsageDb.Admit | internal/billing/middleware.go:17-72 | exactly when a request passes ungated, is unauthorised, expired, over the limit or uncheckable, and that only expiry changes rows |
| Quota.UsageDb.Complete | internal/billing/middleware.go:77-91 | only a success without error is logged, at the time it finished; an error is passed on |
| Quota.CountIsSize | internal/billing/middleware.go:56-65 | counting rows counts the positions of those in the window |
| Quota.WindowHoldsAtMostFourPlusK | internal/billing/middleware.go:56-91 | with at most k requests in flight no thirty-day window holds more than 4 + k successful scans, whatever other rows are logged |
| Quota.FourPlusKIsReached | internal/billing/middleware.go:56-91 | for every k some run reaches that number |
| Quota.WaitingUserGetsThree | internal/billing/usage_logger.go:15-20 | where the end of a scan is logged too, a free user who waits for each scan gets at most three in thirty days |
| Quota.ThreeAreReached | internal/billing/usage_logger.go:15-20 | and three are reached |
| Quota.UsageDb.LogScan | internal/billing/usage_logger.go:15-20 | the end of a scan adds a row of the same kind |
| Quota.AdmitIsStep | internal/billing/middleware.go:56-72 | with the rows of a run logged in any order, the check lets a free user through exactly when the run can take that step |
| Quota.CompleteIsStep | internal/billing/middleware.go:77-91 | and what the end of a request leaves in the log are the rows of the run after its step |
| Quota.LogScanIsStep | internal/billing/usage_logger.go:15-20 | and so does the end of a scan |
| StoreManager.Manager.GetStore | internal/store/manager.go:29-60 | the user's handle, opened if needed; an error exactly for no user or a failed open |
| StoreManager.Manager.CloseAll | internal/store/manager.go:63-74 | closes every open handle and empties the map |
| StoreManager.AloneIsGetStore | internal/store/manager.go:29-60 | a call that goes through on its own gets and leaves what the sequential operation does |
| StoreManager.SecondLook | internal/store/manager.go:45-51 | a call that finds a handle at its second look takes it and opens nothing |
| StoreManager.RunsKeepInv | internal/store/manager.go:29-74 | every interleaving keeps the map to what was opened since the last CloseAll |
| StoreManager.OneHandlePerUser | internal/store/manager.go:29-60 | between two CloseAll calls two callers got the same handle exactly when they asked for the same user |
| StoreManager.OpenedOncePerEpoch | internal/store/manager.go:45-59 | a user's file is opened at most once between two CloseAll calls |
| StoreManager.HandleIsOpenIff | internal/store/manager.go:29-74 | a handle handed out is still open exactly when no CloseAll has come since |
| StoreManager.MapIsInjective | internal/store/manager.go:58 | no two users share a handle |

## Left out

- HTTP and WebSocket handlers, the terminal interface, mail, metrics, configuration and authentication: plumbing.
- Network lookups (DNS, ASN, certificate logs, vulnerability feeds) and fingerprinting: their answers are arbitrary inputs.
- Cryptography: the mesh is taken to deliver only packets some node sent, with message identifiers never reused.
- JSON, bbolt's pages and transactions, and I/O errors: buckets are ordered maps and encodings are faithful.
- GetJob: the job engine's look-up, a copy of the job or none, is part of JobRuns as the first step of a scan.
- Regular expressions: queries start from a parsed plan, and how the text of one address or network is read is a parameter.
- The SYN and UDP scanners, the rate limiter, payments, and the supply-chain and vulnerability tables.
- The literal keyword table of `internal/osint/dns.go`: rules are a parameter, so the results hold for any table.
- Event messages and the message text of errors.
- HandleMsg: is one step of a node but for its sends, which MeshSends takes one by one; between its two locks the code may let a heartbeat evict a peer, in which case that peer misses the copy.
- Publish: is one step of the engine; two jobs publish to disjoint channels, so their sends commute.
- ParseCIDR: leaves out the IPv4 prefix of zero, for which the loop has no end, as LoopEndsIff states; so do Parse and StartScan.
- EventsReplayToTheStore: is about one engine at a time; AnomalyRaces says when it survives several, for the stream of any one sink. The alerts they store side by side are not part of that.
- OpenIffDelivered: is about a job that has the store to itself, and starts where the scan does; a job whose store cannot be opened, or that is cancelled while still predicting, ends before it.
- Admit: takes thirty days as 30 times 24 hours, where `AddDate` counts calendar days, and the two updates of a downgrade to succeed, where the code ignores their errors.
- EveryPeerIsReached: is about one broadcast at a time, and so is InOrderReachesExactlyFourLinks: a second one under way moves its origin's entries in the peer tables, which both take to stay.
- Complete: the insert of the log row is taken to succeed; the code ignores its error.
- Strings.ToLower: folds ASCII letters only, as do the whitespace rules.
- Hello replies are modelled for their effect on peer tables; two nodes answer each other's hellos without end, so nothing is claimed about when they stop.
