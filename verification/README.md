# Lodger's protocols, proved

Lodger is a single-process manager for libvirt. It keeps a copy of libvirt's
objects in memory and tells every open page about changes, throttles logins,
shares one statistics poll among its pages, keeps accounts and sessions in
SQLite, deletes VMs, volumes and pools, and checks addresses and paths before
they reach libvirt. This project models those parts in Dafny and proves what the
code is for, over every input or every interleaving.

`dafny verify dfyconfig.toml` checks the whole project.

| files | part of Lodger |
|---|---|
| `Replication*.dfy`, `Cache.dfy` | the inventory copy: supervisor, cache and WebSocket clients |
| `LoginThrottle.dfy`, `Throttle*.dfy` | the login throttle, a plain ledger as its reference, the bound of 25 and where it ends |
| `StatsHub.dfy` | the shared poll task and its subscribers |
| `Accounts*.dfy` | accounts, sessions and the setup claims |
| `Disks.dfy`, `Volumes.dfy`, `VolumeRuns.dfy`, `VmDelete*.dfy`, `Pools.dfy` | the operations that delete storage |
| `Dotted.dfy`, `Subnets.dfy`, `Xml.dfy`, `Networks.dfy` | IPv4 text, subnets and network documents |
| `Paths.dfy`, `PathRules.dfy`, `PoolFolders.dfy` | plain paths, system folders, pool documents and pool folders |
| `Tickets.dfy` | single-use WebSocket tickets |

## How the parts are modelled

**Inventory.** libvirt is a map, and the model keeps every state it ever had.
Each call that reads one field is a step of its own, so both the full load and a
single refresh can be torn by changes in between. A hub is the log of what was
sent; a receiver is a position in it that falls behind after 1024 entries. A
change and its event are separate steps. The one assumption is that a change made
while a connection is open is followed by an event for that object on that
connection. The invariant says that a stale object is always covered. From it
follow the agreement of a drained system, the freshness of what a client reads,
and that every schedule drains once libvirt rests. A closed connection sends no event
and answers no call, so from there only a new connection leads on.

**Throttle.** The class with its lazily pruned deques and evicting maps is proved
equal to pure functions, and these refine a ledger of all counted turns that counts
by reading the whole log. The bound of 25 live failures per IP is proved from the
ledger: the delays before a 26th sum to 963 s, and only 15 minutes plus one wait
of 60 s can hold them. A concrete run shows that 25 is reached, so the bound is exact.
A second log holds every granted attempt, counted or not, and says how far the
bound reaches.

**Stats hub, accounts, setup.** Interleaved steps around a lock, and transactions
that commit whole or fail with no effect. A session's row is compared with the
exact time of its last use.

**Storage.** Every call that can fail is an input: a script of failing calls, the
outcome of each read of a scan, the lookups that miss, and what other clients do to
the domains at each visit. So each contract says exactly what an operation does under
every combination of failures. A cycle is a closed path of backing files.

**Addresses and paths.** A subnet's first address is its address with the low bits
cleared. Documents are element trees. Texts are read by two readers, one that
refuses leading zeros and one that does not.

## Promises that hold only under a condition

- *A volume that a VM uses is not deleted.* The scan goes on after a failed read.
  A used volume is deletable if and only if it backs no overlay whose name was read
  and every VM disk of its file was passed over: the configuration was not read or did
  not parse, the VM did not answer whether it runs, or the disk's lookup failed and
  its path as written leads elsewhere (`Volumes.DeletableIff`).
  `Volumes.FailedReadDeletesUsedVolume` is a concrete case, and
  `Volumes.UnusedIffDeletable` says that nothing else lets one go.
- *A VM delete keeps what other VMs use.* An own, unshared volume whose calls work goes
  if and only if no disk that a visit saw on another VM leads to its file
  (`VmDelete.TakenIff`). So a volume that another VM uses goes if and only if every disk
  of it was out of sight at its visit. A lookup may have failed
  (`VmDelete.MissedLookupTakesUsedDisk`), or the VM got the disk after its visit, without
  any failure (`VmDelete.LateAttachTakesUsedDisk`). While nobody changes the domains and
  every lookup works, it goes if and only if no other domain has the file
  (`VmDelete.QuietlyTakenIff`).
- *Overlays keep their backing files.* Volume deletes see to it. A VM delete does not
  look at overlays. For every set of failing calls it keeps the backing files if and only
  if it takes every overlay along with each base that it takes
  (`VmDeleteBases.BasesKeptIff`). `VmDeleteBases.BaseIsLost` is a case without a failing
  call, and `VmDeleteBases.FailedDeleteLosesBase` one where only the delete of the overlay
  fails.
- *No IP has more than 25 unsuccessful attempts in 15 minutes.* It holds for an IP that
  the map could count at each of its attempts in that time
  (`ThrottleGrants.CountableAtMost25`). An IP that a full map cannot count is never
  refused, and no bound holds for it: from every reachable state that cannot count it, any
  number of attempts at that moment are all granted
  (`ThrottleGrants.UncountedStaysUnbounded`), and such states are reached
  (`ThrottleGrants.UncountedIsUnbounded`).
- *A failed pool creation leaves no definition.* With the cleanup working, it holds if
  and only if the first failing call is not the last one, the read of the id
  (`Pools.CreateRestoresIff`); `Pools.FailedCreateLeavesPool` is a concrete script.
- *A password change leaves other accounts' sessions alone.* It holds if and only
  if the token given as the current one is not another account's
  (`Accounts.OthersKept`); `Accounts.ForeignSessionEnds` is a concrete case. Lodger's
  own caller passes the token of the session that asks.

The root folder is one more exception, which no caller can reach: as a system tree,
`/` would match only itself, because no plain path starts with two slashes
(`Paths.BelowIffAncestor`). It is not among the trees.

## Model

| member | source | states |
|---|---|---|
| `ReplicationSafety.ReadOnAgrees` | crates/lodger-virt/src/cache.rs:92-150 | one more read call extends a torn read soundly: it finds the object gone, stays a prefix of libvirt's object, or completes to libvirt's current object unless an event for it is still to come |
| `ReplicationSafety.ReplicatedStep` | crates/lodger-virt/src/supervisor.rs:126-168 | every step of libvirt and of the supervisor keeps the replication invariant: change, emit, overwrite, subscribe, list, read, store, refresh, lag, close, failure |
| `ReplicationClose.CloseAheadStep` | crates/lodger-virt/src/supervisor.rs:140-150 | every step keeps that a supervisor past its load still has the close of its connection ahead of it, so it never rests on a closed one |
| `ReplicationClose.ReadCloseDisconnects` | crates/lodger-virt/src/supervisor.rs:149-149 | a supervisor that reads a close is disconnected |
| `ReplicationClose.OnlyConnectLeaves` | crates/lodger-virt/src/supervisor.rs:126-142 | its only own step is then a new connection, with a hub of its own |
| `ReplicationClose.NextInventoryIsNew` | crates/lodger-virt/src/supervisor.rs:126-168 | over runs: after a disconnect the inventory stays until a load stores a new one, and that load began after the disconnect |
| `ReplicationClose.OnlyKeptIsRead` | crates/lodger-virt/src/events/mod.rs:17-19 | a receiver reads only the last 1024 entries |
| `ReplicationRuns.StaleIsCovered` | crates/lodger-virt/src/supervisor.rs:140-168 | in every reachable state with a loaded inventory, an object that differs from libvirt has an event not yet emitted, unread in the hub or in hand, or the hub has lagged and forces a reload |
| `ReplicationRuns.RunIsSafe` | crates/lodger-virt/src/supervisor.rs:126-168 | all invariants, of the inventory, the times, the clients and the notices, hold in every state of every run |
| `ReplicationRuns.DrainedRunAgrees` | crates/lodger-virt/src/supervisor.rs:140-168 | once the events have drained the inventory equals libvirt's objects, and so does the view of every client that has read what it was told to |
| `ReplicationRuns.WorkIsCloser` | crates/lodger-virt/src/supervisor.rs:126-168 | each step of the supervisor and each last event of a pending object brings the system closer to drained, in a well-founded order |
| `ReplicationRuns.NextStep` | crates/lodger-virt/src/supervisor.rs:126-168 | a system that has not drained always has such a step, also on a closed connection whose events never come |
| `ReplicationRuns.SomeScheduleWorks` | crates/lodger-virt/src/supervisor.rs:126-168 | such schedules exist, so the next result is about something |
| `ReplicationRuns.EveryScheduleDrains` | crates/lodger-virt/src/supervisor.rs:126-168 | from every reachable state (also mid-load, lagged, closed or disconnected) every schedule of such steps ends drained on an open connection, with the inventory equal to libvirt; after a close only a new connection gets there |
| `ReplicationCatchUp.ListeningIsNearer` | crates/lodger/src/ws.rs:117-186 | every step by which a client marks, hears or reads brings it nearer to having read everything |
| `ReplicationCatchUp.OthersDoNotDelay` | crates/lodger/src/ws.rs:117-186 | a step of another client leaves this one and all its signals as they are |
| `ReplicationCatchUp.EveryListeningCatchesUp` | crates/lodger/src/ws.rs:117-186 | while the supervisor signals nothing new, every schedule of a client's own steps ends with the client caught up |
| `ReplicationCatchUp.SomeListeningKeepsOn` | crates/lodger/src/ws.rs:117-186 | such schedules exist |
| `ReplicationCatchUp.CaughtUpAgrees` | crates/lodger/src/ws.rs:117-186 | in a drained system the view of such a client is libvirt's |
| `ReplicationClients.InformedStep` | crates/lodger/src/ws.rs:117-186 | every step keeps every client covered: an object whose view differs from the inventory has a queued notice, a lag, an unseen reload, a kind still to read, or the supervisor's own next signal |
| `ReplicationClients.NewClientHearsNothingOld` | crates/lodger/src/ws.rs:120-127 | a new client hears no notice and no reload from before it subscribed |
| `ReplicationClients.MarkDropsOldReloads` | crates/lodger/src/ws.rs:120-127 | marking drops the reloads so far and nothing else |
| `ReplicationTimes.TimelyStep` | crates/lodger-virt/src/supervisor.rs:140-168 | every field in the inventory is a value that libvirt held at or after the object's read time, through every step |
| `ReplicationTimes.ReadTimesGrow` | crates/lodger-virt/src/supervisor.rs:140-168 | no step, not even a full load that started long ago, moves an object's read time back |
| `ReplicationRuns.ReadTimesNeverBack` | crates/lodger-virt/src/supervisor.rs:101-168 | over a run read times only grow |
| `ReplicationRuns.NoticeIsFresh` | crates/lodger-virt/src/supervisor.rs:101-109 | a client that hears a notice and reads the inventory then or later gets only values that libvirt held when the event was sent or after |
| `Cache.Inventory.Apply` | crates/lodger-virt/src/cache.rs:58-67 | the three maps hold exactly the protocol's objects after a refresh is stored |
| `Cache.Inventory.Load` | crates/lodger-virt/src/cache.rs:37-55 | the loop fills the maps with exactly the objects that the reads found |
| `Cache.LoadIsFound` | crates/lodger-virt/src/cache.rs:37-55 | at every moment of every run the interleaved load holds what that loop builds from the results of its torn reads so far |
| `Cache.StoredIsFound` | crates/lodger-virt/src/supervisor.rs:164-168 | the inventory that a load stores is the one built from all its results |
| `Cache.FoundEach` | crates/lodger-virt/src/cache.rs:35-55 | a load of distinct objects holds each one as its read found it, and none that was gone |
| `LoginThrottle.PopOld` | crates/lodger/src/throttle.rs:66-73 | the front-popping loop leaves exactly the pruned times |
| `LoginThrottle.EntryOf` | crates/lodger/src/throttle.rs:53-75 | the lookup with eviction and pruning equals its specification, including the full map |
| `LoginThrottle.Throttle.Begin` | crates/lodger/src/throttle.rs:133-168 | the new maps and the answer are those of the specification that the ledger refines |
| `LoginThrottle.Throttle.Succeed` | crates/lodger/src/throttle.rs:173-185 | the account is cleared and the IP loses exactly this attempt |
| `ThrottleLedger.DecideBounds` | crates/lodger/src/throttle.rs:146-160 | a refusal means exactly that the IP's own queue reaches past the longest delay, and gives its end; a granted wait is at most the longest delay and never before the queue |
| `ThrottleLedger.PruneWithout` | crates/lodger/src/throttle.rs:66-73 | taking an attempt back and pruning can be done in either order |
| `ThrottleLedger.DelaysAddUp` | crates/lodger/src/throttle.rs:101-109 | with c live failures the next turn lies beyond the sum of all c delays after the window's start |
| `ThrottleLedger.AtMost25` | crates/lodger/src/throttle.rs:101-168 | a sound ledger has at most 25 live failures at any time |
| `ThrottleRuns.MatchRoom` | crates/lodger/src/throttle.rs:53-64 | eviction forgets no live failure and no pending turn |
| `ThrottleRuns.SameOutcome` | crates/lodger/src/throttle.rs:133-168 | the pruned, evicted maps and the plain log give the same wait, count or refusal |
| `ThrottleRuns.AgreeTry` | crates/lodger/src/throttle.rs:133-168 | an attempt keeps maps and ledger together for every key |
| `ThrottleRuns.AgreeSuccess` | crates/lodger/src/throttle.rs:173-185 | a success keeps maps and ledger together for every key |
| `ThrottleRuns.RunAnswers` | crates/lodger/src/throttle.rs:133-168 | over any run every answer is the ledger's: the count is the recorded attempts in the window that no success took back |
| `ThrottleRuns.RunWait` | crates/lodger/src/throttle.rs:141-167 | over any run a granted wait is exactly the delay for the larger of the two recorded counts, or the rest of the IP's queue if that is longer, and the reported count is that larger one up to 10 000; an account without a place calls for 60 s, and an IP without one waits just that |
| `ThrottleLedger.DelaySmall` | crates/lodger/src/throttle.rs:100-109 | the delay for every count: none below 5, then 1, 2, 4, 8, 16 and 32 s, and 60 s from 11 on |
| `ThrottleRuns.RunAtMost25` | crates/lodger/src/throttle.rs:101-168 | at every reachable state no IP has more than 25 recorded failures in the last 15 minutes, in the ledger and in the map |
| `ThrottleGrants.GrantsAreLogged` | crates/lodger/src/throttle.rs:133-168 | every granted attempt in the window is a recorded turn, or the map could not count its IP |
| `ThrottleGrants.GrantsBounded` | crates/lodger/src/throttle.rs:101-168 | of all granted attempts in the window that no success took back at most 25 were counted |
| `ThrottleGrants.CountableAtMost25` | crates/lodger/src/throttle.rs:101-168 | an IP that the map could count at each of its attempts in the window has at most 25 unsuccessful ones there, over all that were granted |
| `ThrottleGrants.UncountedIsNeverRefused` | crates/lodger/src/throttle.rs:141-167 | an IP that the full map cannot count always gets its turn after exactly 60 s, and the next attempt finds the same |
| `ThrottleGrants.UncountedStaysUnbounded` | crates/lodger/src/throttle.rs:141-167 | from every reachable state in which the map cannot count an IP, any number of further attempts at that moment are all granted and none is recorded |
| `ThrottleGrants.UncountedIsUnbounded` | crates/lodger/src/throttle.rs:141-167 | such a state is reached: for every number some run grants one IP that many attempts at one moment |
| `ThrottleRuns.RunSpaced` | crates/lodger/src/throttle.rs:146-160 | turns of one IP start in order with at least the delay of the count between any two, each within 60 s of its request; the maps keep to their cap |
| `ThrottleRuns.RunRefusal` | crates/lodger/src/throttle.rs:146-160 | over any run a refusal happens exactly when the IP's own queue is full, tells the right time, and changes no count and no queue |
| `ThrottleRuns.OtherTurns` | crates/lodger/src/throttle.rs:133-185 | no call for another IP changes an IP's turns |
| `ThrottleRuns.RetryIsGranted` | crates/lodger/src/throttle.rs:130-133 | after a refusal, coming back after the returned time with no turn in between is granted |
| `ThrottleRuns.UncountedMeansFull` | crates/lodger/src/throttle.rs:53-64 | an IP goes uncounted only when 10 000 other IPs each have a live failure or a pending turn |
| `ThrottleWitness.TwentyFiveIsReached` | crates/lodger/src/throttle.rs:101-168 | some run reaches 25 live failures of one IP, so the bound is exact |
| `StatsHub.TasksStep` | crates/lodger/src/stats.rs:61-94 | every interleaved step keeps at most one poll task, running exactly when the flag says so |
| `StatsHub.RunSafe` | crates/lodger/src/stats.rs:61-130 | over every interleaving: one task at most, a returned receiver has a task that is not on its way out, and at most one call begins after the last receiver is gone |
| `StatsHub.RunCounts` | crates/lodger/src/stats.rs:61-103 | over any run the receivers are those made and not dropped, and the calls those that began |
| `StatsHub.CallsAfterTheLast` | crates/lodger/src/stats.rs:83-103 | over any run, while nobody listens at most one call begins, over all tasks |
| `StatsHub.PollsAgain` | crates/lodger/src/stats.rs:83-130 | in every schedule: while somebody listens and libvirt is connected, six steps of the task include a stats call, whoever else runs in between |
| `StatsHub.StopsAfterTheLast` | crates/lodger/src/stats.rs:83-99 | in every schedule: with nobody left the task has at most seven more steps and at most one more call, and none if it was waiting for its tick |
| `StatsHub.NeverStuck` | crates/lodger/src/stats.rs:61-99 | nothing blocks the task but a subscriber with the lock, and that one can move on |
| `Accounts.Db.CreateFirstAccount` | crates/lodger/src/db/mod.rs:147-174 | the transaction adds an account only to an empty table, or changes nothing |
| `Accounts.FirstIsExact` | crates/lodger/src/db/mod.rs:147-174 | the first account goes into an empty table, as given, and into no other |
| `Accounts.Db.CreateAccount` | crates/lodger/src/db/mod.rs:197-223 | adds the account unless its name is taken, compared without case |
| `Accounts.AddIsExact` | crates/lodger/src/db/mod.rs:197-223 | a new account is stored as given exactly when nobody has its name, and the others stay |
| `Accounts.Db.DeleteAccount` | crates/lodger/src/db/mod.rs:225-250 | on success exactly the account is gone from the table and it was not the only one; every other answer changes nothing |
| `Accounts.DropIsExact` | crates/lodger/src/db/mod.rs:225-250 | an account goes exactly when it exists and another one does; then it alone goes, with exactly its own sessions; the two refusals happen exactly for a missing and for the only account |
| `Accounts.Db.InsertSession` | crates/lodger/src/db/mod.rs:609-627 | a row for an existing account and a new token, ending 24 hours after its start, or no change |
| `Accounts.InsertIsExact` | crates/lodger/src/db/mod.rs:609-627 | a session is stored exactly for an existing account and an unused token, with its CSRF token and a 24 hour end, and every other row stays |
| `Accounts.Db.ChangePassword` | crates/lodger/src/db/mod.rs:272-304 | commits whole or leaves both tables as they were |
| `Accounts.Db.ResetPassword` | crates/lodger/src/db/mod.rs:307-342 | stores the hash and ends the sessions of the named account, or changes nothing |
| `Accounts.Db.CreateSession` | crates/lodger/src/db/mod.rs:402-417 | purges what is refused anyway and inserts the new row |
| `Accounts.Db.FindSession` | crates/lodger/src/db/mod.rs:419-454 | answers a request with the live session, its user name and its CSRF token or with none, and writes its use at most once a minute; a database error changes nothing |
| `Accounts.Db.SessionAlive` | crates/lodger/src/db/mod.rs:456-471 | says whether the session would be accepted, and changes nothing |
| `Accounts.PasswordChangeIsExact` | crates/lodger/src/db/mod.rs:272-304 | a committed change leaves the account exactly the new session, changes only its hash, counts exactly its other sessions, and touches no other account |
| `Accounts.OthersKept` | crates/lodger/src/db/mod.rs:293-300 | other accounts' sessions are unchanged if and only if the current token is not another account's |
| `Accounts.ForeignSessionEnds` | crates/lodger/src/db/mod.rs:297-300 | a concrete change that ends another account's session |
| `Accounts.PasswordResetIsExact` | crates/lodger/src/db/mod.rs:307-342 | a reset leaves the account no session, counts them, changes only its hash, and leaves every other account and session unchanged |
| `AccountsRuns.InvStep` | crates/lodger/src/db/mod.rs:150-471 | every operation keeps: sessions belong to accounts, names are unique, rows track exact use to the minute, one setup win at most |
| `AccountsRuns.SetupWinsOnce` | crates/lodger/src/setup.rs:116-213 | over all interleavings of claims and account operations at most one claim wins, only into an empty table; the table never becomes empty again; every session has its account |
| `AccountsRuns.WinnerHasShown` | crates/lodger/src/setup.rs:135-160 | over all interleavings a claim creates the account only into an empty table and only after it showed the right setup token before its end |
| `AccountsRuns.WinnerClosesSetup` | crates/lodger/src/setup.rs:192-200 | once the winner has cleared the token, setup is closed for good and no new claim gets in |
| `AccountsRuns.NeverEmptied` | crates/lodger/src/db/mod.rs:225-250 | no operation empties a table that has an account |
| `AccountsRuns.SessionTimes` | crates/lodger/src/db/mod.rs:404-471 | a session nobody ended is accepted until 59 minutes after its exact last use, refused from 60 minutes and from 24 hours on; any other token is refused |
| `AccountsRuns.SessionIsOfItsLogin` | crates/lodger/src/db/mod.rs:419-454 | a request learns the account, its name and the CSRF token of the login that made its session |
| `AccountsRuns.PeekIsNotUse` | crates/lodger/src/db/mod.rs:456-471 | a run with every check of a session left out ends with the same tables, exact times, claims and answers to every token, so a check never extends a session |
| `Volumes.DisksOfAllDomains` | crates/lodger-virt/src/volume.rs:155-183 | the nested loops collect exactly what was read, going on after every failed read |
| `Volumes.ScanIsExact` | crates/lodger-virt/src/volume.rs:155-183 | the list has a use if and only if some VM has a disk there in a configuration that was read and parsed, by the outcome of its lookup |
| `Disks.SameKeyIffSameFile` | crates/lodger-virt/src/delete.rs:196-201 | two paths have equal keys if and only if the links lead both to one file |
| `Disks.KeyIffIsFile` | crates/lodger-virt/src/delete.rs:178-201 | a disk given by file, block device or volume name has the key of a path if and only if it is the file at that path |
| `Volumes.StoragePool.Delete` | crates/lodger-virt/src/volume.rs:100-122 | for every set of failing calls and every outcome of the scan: succeeds exactly for a running pool without a failing call and a volume deletable by that scan, takes only that volume, and each refusal has its exact condition and names the users that the scan saw |
| `Volumes.DeletableIff` | crates/lodger-virt/src/volume.rs:100-215 | the exact condition: a volume is deletable if and only if no overlay with a readable name is on it and every VM disk of its file was passed over by a failed read, parse, answer or lookup |
| `Volumes.UnusedIffDeletable` | crates/lodger-virt/src/volume.rs:100-215 | when every read works, a volume is deletable if and only if its file is no disk of any VM, saved or live, behind any links, and no backing file |
| `Volumes.LinkedDiskKeepsVolume` | crates/lodger-virt/src/volume.rs:155-215 | a concrete disk behind a link keeps its volume |
| `Volumes.MissedNameIsOverlooked` | crates/lodger-virt/src/volume.rs:158-183 | for a disk given by pool and volume name, a failed lookup is enough to pass it over |
| `Volumes.FailedReadDeletesUsedVolume` | crates/lodger-virt/src/volume.rs:158-172 | one failed read of a saved configuration makes a used volume deletable |
| `VolumeRuns.SeenVolumeStays` | crates/lodger-virt/src/volume.rs:185-215 | a volume that the scan sees as a VM disk, under any link, is never deletable |
| `VolumeRuns.OverlaysKeepTheirBase` | crates/lodger-virt/src/volume.rs:100-153 | over any sequence of deletes with changing links, no overlay that is left was on a deleted volume when that one went, unless its name could not be read |
| `VolumeRuns.BackingFilesStay` | crates/lodger-virt/src/volume.rs:100-153 | with the same links all along every overlay left has its in-pool backing file left, unchanged |
| `VolumeRuns.OnlyUnusedGo` | crates/lodger-virt/src/volume.rs:100-113 | over any sequence exactly the deleted names are missing, and no scan had found a user of one |
| `VolumeRuns.EmptiableIffAcyclic` | crates/lodger-virt/src/volume.rs:100-153 | a pool that no VM uses can be emptied by deletes if and only if no closed path of backing files exists |
| `VolumeRuns.SomeVolumeIsDeletable` | crates/lodger-virt/src/volume.rs:100-153 | from an acyclic pool, after any deletes, some volume is deletable while one is left and no VM uses the rest |
| `VmDelete.Resolve` | crates/lodger-virt/src/delete.rs:154-176 | the loop splits the disks into targets and unresolved volumes in order |
| `VmDelete.ResolveAccounts` | crates/lodger-virt/src/delete.rs:154-176 | every disk becomes exactly one target or one skipped entry |
| `VmDelete.PathsOfOtherDomains` | crates/lodger-virt/src/delete.rs:203-250 | whatever others do to the domains between the visits: every file that a visit found has a user, every user is a visited VM that has it, and it fails exactly for a failing call, with the first one |
| `VmDelete.UsedIff` | crates/lodger-virt/src/delete.rs:180-231 | the scan knows a file of a VM if and only if one of its disks leads there; a disk of the file leads elsewhere if and only if its lookup failed and so does its path as written |
| `VmDelete.TakenIff` | crates/lodger-virt/src/delete.rs:112-134 | the exact condition on the delete: an own, unshared volume whose calls work goes if and only if no disk that a visit saw on another VM leads to its file |
| `VmDelete.QuietlyTakenIff` | crates/lodger-virt/src/delete.rs:203-231 | while nobody changes the domains and every lookup works, it goes if and only if its file is no disk of another domain, saved or live, behind any links |
| `VmDelete.LinkedDiskStays` | crates/lodger-virt/src/delete.rs:196-231 | a concrete disk that another VM has behind a link stays |
| `VmDelete.MissedLookupTakesUsedDisk` | crates/lodger-virt/src/delete.rs:180-196 | one failed lookup lets a volume go that another VM has by name |
| `VmDelete.LateAttachTakesUsedDisk` | crates/lodger-virt/src/delete.rs:93-112 | a disk that a VM gets after its visit goes, without any failure |
| `VmDelete.Connection.RemoveTargets` | crates/lodger-virt/src/delete.rs:112-134 | the volumes left and the report are those of the specification, for every set of failing calls |
| `VmDelete.HandleIsHandled` | crates/lodger-virt/src/delete.rs:112-134 | each target is removed or skipped once for a reason that holds (a failed one for a failing call of its own), and exactly the reported volumes are gone |
| `VmDelete.HandleTakes` | crates/lodger-virt/src/delete.rs:112-134 | exactly the volumes go that some unshared, unused target with working calls names |
| `VmDelete.Connection.Delete` | crates/lodger-virt/src/delete.rs:75-135 | for every interference, missed lookup and failing call: succeeds exactly when the VM was and stayed shut off and defined and no earlier call failed, and each error has its exact condition; accounts for every data disk once; exactly the volumes of unshared disks go whose calls work and whose file no visit found on another VM, saved or live; removes nothing on any error or if the VM still exists; no other domain changes |
| `VmDelete.LabelTells` | crates/lodger-virt/src/delete.rs:154-176 | the report names a disk by its path, or by pool and volume if it has none |
| `VmDelete.HandleTakesAll` | crates/lodger-virt/src/delete.rs:112-134 | for every set of failing calls the loop takes exactly the volumes that the disks, the visits and the calls say |
| `VmDeleteBases.BasesKeptIff` | crates/lodger-virt/src/delete.rs:112-134 | for every set of failing calls a VM delete leaves every overlay its backing file if and only if it takes every overlay along with each base that it takes |
| `VmDeleteBases.BaseIsLost` | crates/lodger-virt/src/delete.rs:112-134 | a VM whose disk is the base of an overlay takes it from under that overlay |
| `VmDeleteBases.FailedDeleteLosesBase` | crates/lodger-virt/src/delete.rs:112-134 | a VM with base and overlay keeps no overlay without its base, but if only the delete of the overlay fails, the overlay is left without it |
| `VmDelete.ReportAccounts` | crates/lodger-virt/src/delete.rs:85-135 | the unresolved disks and the handled targets add up to the full account, each entry justified by a disk and a domain |
| `Pools.Libvirt.Create` | crates/lodger-virt/src/pool.rs:179-209 | the slot of the new id and the error are those of the specification, for every script; other pools and folders are untouched |
| `Pools.CreateFailsAtFirst` | crates/lodger-virt/src/pool.rs:187-198 | for every script and every moment at which another client starts the pool, a create fails with the first failing call of its plan, and with no other |
| `Pools.CreateRestoresIff` | crates/lodger-virt/src/pool.rs:197-208 | for every script and every such moment a failed create leaves no pool if and only if the first failing call is not the id read, the undefine works, and the stop does if the pool runs by then |
| `Pools.CreateLeavesRunning` | crates/lodger-virt/src/pool.rs:187-198 | a create that succeeds or fails only at the id leaves a defined, running pool with its autostart |
| `Pools.CreateKeepsFolder` | crates/lodger-virt/src/pool.rs:187-208 | a create keeps an existing folder with all its files, and leaves a new one exactly when the build worked |
| `Pools.FailedCreateLeavesPool` | crates/lodger-virt/src/pool.rs:198-198 | a concrete script after which the create failed and the pool is defined and running |
| `Pools.Libvirt.BuildAndStart` | crates/lodger-virt/src/pool.rs:187-196 | the calls up to the first failure, with another client free to start the pool before any of them, equal the specification |
| `Pools.Libvirt.CleanUp` | crates/lodger-virt/src/pool.rs:199-207 | the stop and the undefine equal the specification, in which libvirt refuses to undefine a running pool |
| `Pools.Libvirt.DeleteVolumes` | crates/lodger-virt/src/pool.rs:145-150 | the loop leaves exactly the volumes from the first failing one on |
| `Pools.Libvirt.EmptyPool` | crates/lodger-virt/src/pool.rs:139-158 | starting, emptying and stopping again equal the specification |
| `Pools.Libvirt.TakeDown` | crates/lodger-virt/src/pool.rs:159-177 | stop, folder delete and undefine equal the specification; a transient pool is gone once it stops |
| `Pools.Libvirt.Remove` | crates/lodger-virt/src/pool.rs:124-177 | the slot and the error are those of the specification, for every script; other pools and folders are untouched |
| `Pools.RemoveFailsAtFirst` | crates/lodger-virt/src/pool.rs:138-176 | for every script a removal fails with the first failing call of its plan, and succeeds if there is none |
| `Pools.RemoveSucceedsIff` | crates/lodger-virt/src/pool.rs:138-176 | a removal succeeds exactly when the pool is gone, and says what became of the folder |
| `Pools.FailedVolumeKeepsRest` | crates/lodger-virt/src/pool.rs:145-157 | a failed volume delete leaves exactly the volumes from the failing one on, and the pool defined and in its running state unless the stop fails too |
| `Pools.FailedFolderCanRetry` | crates/lodger-virt/src/pool.rs:166-168 | a failed folder delete leaves the pool defined, stopped and empty, and then the same removal without a fault succeeds |
| `Pools.EarlyFailureKeepsAll` | crates/lodger-virt/src/pool.rs:138-157 | any other early failure leaves pool and folder as they were, unless the stop fails too |
| `Pools.LateFailureKeepsPool` | crates/lodger-virt/src/pool.rs:159-176 | a failure after the volumes leaves the pool defined, running until the stop works and stopped then |
| `Dotted.AddressReadsPrint` | crates/lodger-core/src/xml/network.rs:116-120 | reading a printed address gives it back |
| `Dotted.AddressPrintsRead` | crates/lodger-core/src/xml/network.rs:190-194 | printing a read address gives the text back, so an address has one text |
| `Subnets.NetReadsPrint` | crates/lodger-core/src/validate.rs:249-259 | reading a printed subnet gives it back |
| `Subnets.PrivateIffAllPrivate` | crates/lodger-core/src/validate.rs:20-26 | the three range tests hold if and only if every single address is private by section 3 of RFC 1918 |
| `Subnets.AcceptedIff` | crates/lodger-core/src/validate.rs:246-276 | accepted are exactly the plain texts of the private, aligned subnets of at most 30 bits, so each has one accepted text |
| `Subnets.SyntaxErrorIff` | crates/lodger-core/src/validate.rs:249-258 | a syntax error means exactly that the text has no NUL byte and is the plain text of no subnet, which shuts out leading zeros |
| `Subnets.SubnetErrors` | crates/lodger-core/src/validate.rs:259-274 | of the texts that are subnets, each error stands for the first rule that fails: an address that is not private, a prefix over 30, host bits |
| `Subnets.SuggestionIsAccepted` | crates/lodger-core/src/validate.rs:268-274 | the network that a host-bits error suggests is itself accepted, has the same prefix and contains the address |
| `Subnets.MeetingBlocksNest` | crates/lodger-core/src/validate.rs:278-296 | two blocks that share an address are nested |
| `Subnets.OverlapIsExact` | crates/lodger-core/src/validate.rs:278-296 | the check passes if and only if no address is shared, and else names the first network that shares one |
| `Networks.Ip` | crates/lodger-core/src/xml/network.rs:114-130 | the 32-bit arithmetic stays in range and builds the specified element |
| `Networks.ToXml` | crates/lodger-core/src/xml/network.rs:76-94 | pushing the children builds the specified document |
| `Networks.HostsAreSplit` | crates/lodger-core/src/xml/network.rs:113-130 | the texts in the element stand for a gateway and a DHCP range that split the host addresses |
| `Networks.SubnetsReadBack` | crates/lodger-core/src/xml/network.rs:181-203 | the subnets read from a built document are exactly the one it was built from, or none for a bridge |
| `Networks.DocumentReadsBack` | crates/lodger-core/src/xml/network.rs:151-179 | so are its name, forward mode and bridge |
| `Networks.ReadersAreFirst` | crates/lodger-core/src/xml/network.rs:154-180 | in any document name, bridge and forward mode are those of the first such element, and a missing mode means NAT |
| `Networks.PrefixFromFinds` | crates/lodger-core/src/xml/network.rs:193-197 | a netmask is read as a prefix exactly when it is that prefix's mask |
| `Networks.SubnetIff` | crates/lodger-core/src/xml/network.rs:136-203 | for every element: its subnet is the block of its address with the prefix it states, else with the prefix whose mask it states, else with that of its class; it has none exactly when it states none |
| `Networks.KnownIff` | crates/lodger-core/src/xml/network.rs:106-110 | the check looks at exactly the blocks of all networks |
| `Networks.KnownIsNamed` | crates/lodger-core/src/xml/network.rs:106-110 | each under the name of its own network |
| `Networks.CheckIff` | crates/lodger-core/src/xml/network.rs:96-111 | a new network passes if and only if its subnet shares no address with any block, stated by prefix, mask or class |
| `Networks.CreatedAsAsked` | crates/lodger-core/src/xml/network.rs:36-94 | an accepted request adds one document with the name, mode and subnet that were asked for |
| `Networks.RemovedAsAsked` | crates/lodger-core/src/xml/network.rs:96-111 | between creates a network may go, and then only that one |
| `Networks.CreatesStayApart` | crates/lodger-core/src/xml/network.rs:96-111 | whatever is created and removed one at a time, the blocks of all networks stay pairwise disjoint, and every new network has only usable, private ones |
| `Paths.ParseIsIdempotent` | crates/lodger-core/src/validate.rs:123-156 | an accepted path's plain form is accepted, is its own plain form and names the same folders |
| `Paths.SameIffSameParts` | crates/lodger-core/src/validate.rs:123-156 | two accepted inputs get the same output if and only if their non-empty segments agree |
| `Paths.PlainIsShort` | crates/lodger-core/src/validate.rs:120-156 | the plain form has no more bytes than the input |
| `Paths.BelowIffAncestor` | crates/lodger-core/src/xml/pool.rs:120-134 | on plain paths the string test is the ancestor relation on segments |
| `Paths.TargetIsExact` | crates/lodger-core/src/xml/pool.rs:15-35 | a folder is refused exactly when a system tree is its ancestor or it is a system folder, however it is spelled |
| `PathRules.PartIff` | crates/lodger-core/src/validate.rs:141-141 | the parts of a path are exactly the non-empty segments of its text |
| `PathRules.BytesAreUtf8` | crates/lodger-core/src/validate.rs:134-140 | the length is that of the UTF-8 encoding |
| `PathRules.AcceptedIff` | crates/lodger-core/src/validate.rs:126-156 | accepted if and only if the text has no NUL byte, starts with a slash, has at most 4096 bytes, no segment `.` or `..` and no control character; each error stands for the first of these that fails |
| `PathRules.AcceptedFolderIsSafe` | crates/lodger-core/src/xml/pool.rs:122-134 | following the segments of an accepted folder, with `..` going up, never ends in a system tree or a system folder |
| `PoolFolders.ToXml` | crates/lodger-core/src/xml/pool.rs:75-91 | pushing the children builds the specified document |
| `PoolFolders.DocumentReadsBack` | crates/lodger-core/src/xml/pool.rs:163-186 | the folder and the NFS source read from a built document are those it was built from |
| `PoolFolders.FolderIff` | crates/lodger-core/src/xml/pool.rs:163-168 | in any document the folder is the first path of the first target |
| `PoolFolders.ExportIff` | crates/lodger-core/src/xml/pool.rs:170-186 | in any document the export is that of the first source of an NFS pool whose format, if stated, is NFS or automatic |
| `PoolFolders.SameHostIff` | crates/lodger-core/src/xml/pool.rs:109-113 | server names compare without regard to the case of ASCII letters |
| `PoolFolders.CheckAgainst` | crates/lodger-core/src/xml/pool.rs:93-118 | on the existing documents: passes if and only if no pool is in the way, and else gives the first one, its folder before its export |
| `PoolFolders.ClashIffSame` | crates/lodger-core/src/xml/pool.rs:93-118 | a pool is refused for its folder exactly when the other document has the same folder, and for its export exactly when it has the same export and server but another folder, in any readable spelling |
| `PoolFolders.PoolsStayApart` | crates/lodger-core/src/xml/pool.rs:50-118 | over any sequence of creates no two documents name the same folder or the same export |
| `PoolFolders.CreatedAsAsked` | crates/lodger-core/src/xml/pool.rs:53-74 | an accepted request adds one document with the plain folder and export that were asked for |
| `PoolFolders.HostIsSafe` | crates/lodger-core/src/validate.rs:158-182 | an accepted server name cannot be taken for an option, a path or a list |
| `Tickets.Store.IssueTicket` | crates/lodger/src/tickets.rs:47-75 | the new map and the answer are those of the specification |
| `Tickets.Store.RedeemTicket` | crates/lodger/src/tickets.rs:77-95 | the ticket is gone after one try, and the answer is the specification's |
| `Tickets.CappedRefines` | crates/lodger/src/tickets.rs:47-95 | over any run the map lacks only expired tickets compared with one without cap, and holds at most 10 000 |
| `Tickets.UncappedAgrees` | crates/lodger/src/tickets.rs:47-95 | every redeem answers as without cap and purge, and a ticket is refused exactly when 10 000 live ones are out |
| `Tickets.RedeemIffGood` | crates/lodger/src/tickets.rs:77-95 | a redeem succeeds if and only if an earlier call granted the ticket to this session and this exact origin, it has not expired, and nobody tried it since |
| `Tickets.RedeemedOnce` | crates/lodger/src/tickets.rs:77-95 | no ticket is redeemed twice, and a failed try uses it up too |

## Left out

- Foreign calls, connection handling and the event loop thread: only the hub's capacity and the kinds of events matter here.
- Autostart changes by other tools: libvirt sends no event for them, so they are outside the assumption on events.
- The connection banner, the `virt` handle and the retry delay of the supervisor: they do not touch the inventory.
- Errors of a single read other than "gone": they end the session, which the model allows at any step but between a store and its signal; a bridge name that cannot be read for another reason counts as libvirt's own answer.
- The race of a page that reads before its socket has subscribed: a client here starts with everything to read, and reads after it has marked the reload counter.
- The statistics themselves: rates are floating point and change no protocol state.
- Hashing, randomness and constant-time comparison: tokens and tickets stand for their hashes, and new ones are taken as new.
- The normalisation of account and IP keys in the throttle: the proofs hold for any keys.
- `usize` and clock overflow in the throttle: times are unbounded numbers, and the count of an uncounted key is the largest 64-bit number.
- SQL text, locking and file modes: a transaction is one step that may fail with no effect; the one statement pair outside a transaction, purge and insert at login, may stop in between.
- Token lifetime of setup, user names and password rules: a claim that fails them is one that is abandoned.
- Links and volumes that change while one scan runs: one file system and one set of volumes hold for a scan, although each of its lookups may fail.
- Volumes.StoragePool.Delete: gives the users as sets; the code lists them sorted, the VMs first. The calls on one object of a step count as one call.
- VmDelete.Connection.Delete: a lookup in the scan has one outcome per VM and disk, and libvirt's cleaning of a double slash after a failed first lookup is not modelled.
- VmDelete.Connection.UndefineCall: the retry with fewer flags is one call with the same outcomes.
- Pools.Libvirt.Remove: the list of volumes is the folder's content after the refresh; changes by others during the removal are not modelled.
- The users of a pool by folder and the checks before a removal: a scan of the same shape as the one for volumes.
- XML text, escaping and indentation: documents are trees, and of the names only those that the code reads are told apart.
- Names of host bridges: a small character table.
- Networks.CreatesStayApart: a new network's document is read back as it was built; what libvirt adds to it changes no `ip` element.
- HTTP handlers, routing, TLS, audit, CLI, configuration, the web app and the scripts: thin wrappers and user interface.
- Virtual network and power operations in libvirt: the same shape as the pool operations.
