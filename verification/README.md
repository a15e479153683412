# Verified model of the load-balancer listener, its agent and its runner

A Dafny model of the parts of the repository whose correctness is hard to see
from reading one function: the listener's apply and delete pipelines and the
coalescing in front of them, the texts that must be read back after they were
written, the route order, the include walker, the address guard, the runner's
output stream, the agent's buffered sender, the replay protection and the
process selection. `dafny verify dfyconfig.toml` checks everything.

Code that changes state step by step is a class or a method with loops, proved
equal to a specification function; the promises are lemmas about that function
and, where several steps or threads interleave, about runs: sequences of events
of any length in which every fallible step may go either way.

| file | models |
|---|---|
| `Text.dfy` | string operations the parsers and printers use |
| `Payload.dfy` | the payload and its validation |
| `Grouping.dfy`, `Locations.dfy` | the stable sort of routes, nginx's selection rule |
| `Vhost.dfy`, `Manifest.dfy`, `RoundTrip.dfy` | the template, the parser of managed files, and that they undo each other |
| `Sections.dfy`, `Dump.dfy` | the configuration dump and who declares a domain |
| `ConfDir.dfy`, `ApplyServer.dfy`, `ApplyRuns.dfy` | one apply or delete, and whole runs with failures and crashes |
| `ApplySlot.dfy` | coalescing of concurrent applies of one application |
| `PoolToggle.dfy`, `PoolToggleProofs.dfy`, `PoolHandler.dfy`, `PoolRaces.dfy` | the in-place toggle of an upstream, the request around it, and two requests at once |
| `Inventory.dfy`, `InventoryProofs.dfy`, `InventoryScan.dfy`, `InventoryAgreement.dfy`, `InventoryToggles.dfy` | the inventory scanner and its agreement with the toggle |
| `ConfTree.dfy`, `IncludeDepth.dfy` | the include walker, and when its depth guard does no harm |
| `Masks.dfy`, `IpGuard.dfy`, `ProtectedLists.dfy` | mask arithmetic, the protection check, the reconcile of the four sets, runs of applies with changing lists |
| `Nonces.dfy` | timestamp window and nonce cache |
| `Collector.dfy` | the runner's output collector and log numbers |
| `Listing.dfy`, `BufferNames.dfy`, `Sender.dfy`, `Processes.dfy` | sorted listings, the names of buffered files, the agent's sender with crashes, the process selection |

## What is a parameter

Text is ASCII. Outcomes of I/O, of nginx, nft and the network, and clock
readings, are parameters of each step (the `World` of a module), and the lemmas
hold for all of them. `net.ParseIP`, `regexp.Compile` and the address-class
test of `validateProxyPass` are functions of a `Library` of which only this is
required: text accepted as an address holds nothing but hexadecimal digits,
colons and dots. The explanatory comments of the template are a parameter, since
no parser reads them. The pipelines take any template that renders a payload to a
file showing exactly its reference and domains; `ApplyRuns.RenderIsFaithful` says
the listener's own one does. Files are changed by nobody else while the model runs.

## Findings

What the proofs turned up. Each row names the lemma with the exact condition, for
all inputs, and the lemma that exhibits a failing input.

| where | as written | input | intended | confidence |
|---|---|---|---|---|
| internal/auth/auth.go:70-78 | the distance is a saturating 64-bit duration whose negation can stay negative, so a timestamp some 292 years ahead counts as inside the window and its nonce is accepted again after the time to live, exactly in that case (`Nonces.FarAheadExact`) | a timestamp at least 9223372337 seconds ahead, sent twice 300 seconds apart under the default settings (`Nonces.FarAheadWitness`) | a timestamp outside the window is refused (`internal/auth/auth.go:60-61`) | certain |
| internal/lbserver/server.go:565-590 | a failed reload removes the application's file when the old one was present but could not be read for the backup, exactly in that case (`ApplyRuns.FailedApplyRestores`) | the file present, unreadable, and a reload that fails (`ApplyRuns.RollbackLosesFile`) | the file goes back to its previous version (`internal/lbserver/server.go:577-578`) | certain |
| internal/nginx/pooltoggle.go:52-61 | putting a pool in rotation whose servers say only `down` succeeds and leaves it without a server, which can be edited neither way again, exactly in that case (`PoolToggleProofs.ReadBack`, `PoolToggleProofs.ToggleTwice`) | a block holding only `server down;` (`PoolToggleProofs.ClearingEmptiesPool`) | a second identical edit is a no-op that says so (`internal/nginx/pooltoggle.go:74-75`) | certain |
| internal/render/locations.go:220-224 | a path declared both plain and `^~` passes validation although nginx refuses the file, exactly in that case (`Locations.RefusedExactly`) | two routes to the pool on `/a` (`Locations.AcceptedButRefused`) | a duplicate location is reported before anything is written (`internal/render/locations.go:164-165`) | certain of the validation; that nginx refuses is from its documentation |
| internal/nginx/readconf.go:44-56 | a readable file two includes away is missing when the file that includes it was first reached at the full depth; complete exactly as `ConfTree.EmitsReachable` says, and always under `IncludeDepth.ShortChainsComplete` | twelve files, of which the main one includes the first and the tenth (`IncludeDepth.ReachableNotEmitted`) | only nesting deeper than ten is given up (`internal/nginx/readconf.go:38-40`) | certain |
| internal/runner/loop.go:162-173 | the counter is read and incremented by two goroutines without a lock, so a keepalive can arrive with a number after the next batch's, or with one already used, exactly as `Collector.KeepaliveNumber` says | a batch whose request is slow, or a keepalive that is (`Collector.KeepaliveOvertakes`, `Collector.KeepaliveLags`) | a keepalive rides on the number the next batch will use (`internal/runner/loop.go:164-169`) | certain |
| internal/agent/buffer.go:43 | names of one instant sort out of order once the push counter outgrows its eight digits; in order below that (`BufferNames.PadOrder`) | the counters 99999999 and 100000000 (`BufferNames.BoundIsSharp`) | the suffix guarantees the order within one instant (`internal/agent/buffer.go:39-40`) | certain, and of no practical weight |
| internal/agent/transport.go:181-188 | a report resent from the buffer is acknowledged a second time when the process dies before its file is removed; each such crash adds one acknowledgement and nothing else does (`Sender.OnePlaceEach`) | one buffered report, a crash after its resend, and the next drain (`Sender.AcknowledgedTwice`) | a buffered report is removed once it has been resent (`internal/agent/transport.go:186-188`) | certain |
| internal/lbserver/pool.go:159-164 | a write of the main file that fails half way loses the original, as the backup is removed then; exactly when something else is left and the removal works (`PoolHandler.OriginalSurvives`) | a write that leaves an empty file (`PoolHandler.TornWriteLosesConf`) | the copy is kept next to the original (`internal/lbserver/pool.go:46-48`) | certain |
| internal/lbserver/pool.go:108-199 | the handler takes no lock: once two requests for different pools have read the same file, one of the two changes is missing at every later moment (`PoolRaces.OverlapNeverBoth`); when one reads what the other wrote, both stay (`PoolRaces.InTurnKeepsBoth`) | both read, then each writes and checks: both are told of a success (`PoolRaces.OverlapLosesUpdate`) | a success means the file shows the change (`internal/lbserver/pool.go:181-193`) | certain for requests that overlap |
| scripts/lib/ip-lib.sh:291-320 | an apply that is refused changes nothing, so an address blocked before its range was protected stays blocked; a completed apply always unblocks it (`IpGuard.ApplyProtects`, `IpGuard.CompletedApplyUnblocks`) | the same `block` line applied without and then with the address on the protected list (`ProtectedLists.RefusalKeepsBlock`) | protected ranges must never be blocked (`scripts/ipctl.sh:22-26`) | certain |
| scripts/lib/ip-lib.sh:186-194 | normalising twice is not normalising once, exactly for an entry that gives its single-host length twice (`IpGuard.NormalizeStable`) | an address of either family followed by its single-host length twice (`IpGuard.NormalizedAgain`) | what is sent looks like what is read back (`scripts/lib/ip-lib.sh:183-185`) | certain |

The code also decides against its documentation in one place without harm: a
second use of an idempotency key is answered `noop` only when the first one
succeeded, while the comment at `internal/lbserver/server.go:510` speaks of any
outcome. `ApplyRuns` records a key on success only, as the code does.

## Model

| member | source | states |
|---|---|---|
| Payload.ValidatePayload | internal/render/payload.go:160-214 | reports nothing exactly when every rule of a payload holds, and names every bad domain and address |
| Payload.ValidateLocations | internal/render/locations.go:166-244 | reports nothing exactly when every route is well-formed, no (matcher, path) repeats, and a route without a target has upstreams to go to |
| Payload.RouteLoop | internal/render/locations.go:180-231 | the loop over the routes finds an error exactly when some route is bad or some key repeats |
| Payload.KeyDeterminesLocation | internal/render/locations.go:220-224 | the joined key used for duplicates is equal exactly when matcher and path are both equal |
| Grouping.StableSort | internal/render/locations.go:100-110 | the in-place sort yields the stable sort of the array by the key |
| Grouping.StableSortUnique | internal/render/locations.go:84-110 | a sorted list that keeps the order inside each key is the only one |
| Locations.OrderedLocations | internal/render/locations.go:100-110 | the sorted copy is exact routes, then `^~`, then plain, then regexes, each group in declared order |
| Locations.GroupedIsStableSort | internal/render/locations.go:84-123 | that grouping is the stable permutation by matcher group |
| Locations.OrderPreservesRouting | internal/render/locations.go:84-110 | for every valid payload, every URI and every regex engine, nginx answers alike before and after ordering: it refuses both files, or picks the same route from both |
| Locations.RefusedExactly | internal/render/locations.go:220-224 | nginx refuses a valid payload's routes for repetition if and only if some path is declared both plain and `^~`, which validation lets through |
| Locations.AcceptedButRefused | internal/render/locations.go:166-244 | a payload that passes the route validation and is refused for that |
| Manifest.ParseManagedConf | internal/nginx/manifest.go:41-70 | the parsing loop returns what its header and its lines declare, in order |
| RoundTrip.ParseRender | conf/nginx-app.conf.tmpl:20-97 | for every valid payload, parsing the rendered file returns exactly its reference, revision, domains and upstreams, whatever its routes, cache, limits and websocket flags |
| RoundTrip.BlockOfRender | internal/nginx/legacy.go:37-75 | in a dump the rendered file shows as managed by its application with exactly its domains, and no line of it starts another file |
| RoundTrip.UpstreamNameWord | internal/render/render.go:15-22 | the upstream's name is one word |
| RoundTrip.HeaderParses | conf/nginx-app.conf.tmpl:20 | the managed-by header is read back as its reference and revision |
| RoundTrip.ServerLineDeclares | conf/nginx-app.conf.tmpl:37-39 | a printed server line declares its address and port and nothing else |
| RoundTrip.NameLineDeclares | conf/nginx-app.conf.tmpl:47 | the printed server_name line declares exactly the payload's domains |
| RoundTrip.LocationBlocksSilent | conf/nginx-app.conf.tmpl:57-97 | no line of any route block is mistaken for a domain, an upstream or a new file |
| Dump.ParseDump | internal/nginx/legacy.go:37-75 | the scanner returns one block per marker with the names and the owner its lines declare |
| Dump.FindDomainOwner | internal/nginx/legacy.go:79-88 | the first block that declares the domain, in any case |
| Dump.OwnerIs | internal/nginx/legacy.go:79-88 | none exactly when no block declares it, otherwise a block that does |
| Dump.BlocksOfDump | internal/nginx/legacy.go:37-75 | parsing the printed dump of any files gives back one block per file, in order |
| ConfDir.CopyConfTree | internal/nginx/write.go:40-68 | the overlay is every configuration file but the excluded one, or nothing if the directory cannot be listed or one file cannot be read or written |
| ApplyServer.Server.CheckDomainCollision | internal/lbserver/server.go:613-667 | for any owners, payload and dump, the two loops return exactly the verdict that `ApplyRuns.CollisionSound` shows to be sound |
| ApplyServer.Server.RunApply | internal/lbserver/server.go:506-605 | the whole new state and reply of one apply, including rollback; a success means a new key, a higher revision and a tested file in place, and anything else leaves the maps as they were |
| ApplyServer.Server.DeleteApp | internal/lbserver/server.go:736-792 | the whole new state and reply of one delete, including rollback; a success leaves a tested directory without the file and no domain of the application, and anything else whose restore works leaves the directory as it was |
| ApplyRuns.VerdictSound | internal/lbserver/server.go:640-667 | when the first owner in a complete dump is acceptable, no other loaded file declares the domain |
| ApplyRuns.CollisionSound | internal/lbserver/server.go:613-667 | an apply that passes the check declares nothing another file declares |
| ApplyRuns.PromotedGood | internal/lbserver/server.go:540-590 | a promoted file keeps the directory's names disjoint before any bookkeeping |
| ApplyRuns.RenderIsFaithful | internal/lbserver/server.go:532-538 | what the runs assume of the template, the listener's own template meets, whatever its comments say |
| ApplyRuns.RunKeeps | internal/lbserver/server.go:506-792 | every step of every run keeps the files disjoint and the owner map sound |
| ApplyRuns.DomainsStayDisjoint | internal/lbserver/server.go:506-792 | from disjoint files, no reachable state, through failures, failed rollbacks, crashes and restarts, has two files declaring a domain; a recorded owner is the only one |
| ApplyRuns.RefIsNoRepo | internal/lbserver/server.go:782-804 | a valid reference is never a valid repository, so a delete never forgets a repository's revision |
| ApplyRuns.RevisionsIncrease | internal/lbserver/server.go:510-598 | in one process lifetime successful applies of a repository increase, no key succeeds twice, and the recorded revision is the maximum |
| ApplyRuns.TestedIsPromoted | internal/lbserver/server.go:549-572 | the configuration files after a promotion are a set that passed the test |
| ApplyRuns.TestedIsRemoved | internal/lbserver/server.go:754-770 | so are those after a removal |
| ApplyRuns.FailedApplyRestores | internal/lbserver/server.go:565-590 | a promoted apply that nginx does not take, and whose restore works, leaves directory, maps and history as they were, whatever requests arrive meanwhile, if and only if the file was new or the one it replaced could be read |
| ApplyRuns.RollbackLosesFile | internal/lbserver/server.go:565-590 | the failing input: the application's file is present and cannot be read, the reload fails, and the rollback removes it |
| ApplyRuns.OnlyTestedSets | internal/lbserver/server.go:549-584 | in every reachable state the configuration files are the set the run began with or a set some earlier request had nginx test, if no apply replaces a file it cannot read |
| ApplyRuns.FailedDeleteRestores | internal/lbserver/server.go:743-780 | a removal that nginx does not take, and whose restore works, leaves directory, maps and history as they were, whatever requests arrive meanwhile |
| ApplyRuns.RefusedIsNotApplied | internal/lbserver/server.go:506-575 | a request refused before its write changes nothing and is never reported as applied |
| ApplyRuns.ApplyIsStartThenEnd | internal/lbserver/server.go:506-605 | the two steps of the run model make up one apply |
| ApplyRuns.DeleteIsStartThenEnd | internal/lbserver/server.go:736-792 | and one delete |
| ApplySlot.SingleLeader | internal/lbserver/server.go:442-500 | in every interleaving at most one leader, and an idle slot holds no waiter and no payload |
| ApplySlot.EveryCallerAnswered | internal/lbserver/server.go:442-500 | every caller is answered at most once, and exactly once when the slot is idle |
| ApplySlot.NoStaleSuccess | internal/lbserver/server.go:442-500 | no caller is told of a success at a revision below its own |
| ApplySlot.BroadcastIsHighest | internal/lbserver/server.go:474-499 | the result that is broadcast is that of the highest revision among leader and waiters |
| ApplySlot.TenureBounded | internal/lbserver/server.go:452-499 | a tenure runs the pipeline at most 1 + MaxQueueLen times |
| ApplySlot.PipelineIsHonest | internal/lbserver/server.go:506-605 | a success of the pipeline names the payload's own revision, as the interleavings assume |
| PoolToggle.SetPoolDown | internal/nginx/pooltoggle.go:78-139 | the search, the brace count and the edit in place return exactly the text, counts and refusals whose meaning the `PoolToggleProofs` rows state |
| PoolToggle.PoolIsDown | internal/nginx/pooltoggle.go:141-153 | whether the position is known, and then whether every server line of the block carries `down` |
| PoolToggleProofs.PositionMeans | internal/nginx/pooltoggle.go:141-153 | known exactly when the pool is found and has a server, and then down exactly when every server line carries `down` |
| PoolToggle.FirstLine | internal/nginx/pooltoggle.go:24-26 | the leftmost match of a line pattern |
| PoolToggle.FindClose | internal/nginx/pooltoggle.go:89-109 | the brace that closes the block |
| PoolToggle.EditBlock | internal/nginx/pooltoggle.go:111-132 | the lines edited in place and both counters |
| PoolToggle.HeaderIsMatch | internal/nginx/pooltoggle.go:24-26 | the recogniser of an opening line accepts everything the pattern describes |
| PoolToggle.HeaderStays | internal/nginx/pooltoggle.go:78-90 | replacing what follows the opening brace never moves the block's header |
| PoolToggle.DirectiveParsed | internal/nginx/pooltoggle.go:36 | the pieces a server line is taken into make it up again |
| PoolToggle.DirectivePrinted | internal/nginx/pooltoggle.go:36 | pieces that fit the pattern are the ones found in the line they print |
| PoolToggleProofs.EditTwice | internal/nginx/pooltoggle.go:111-132 | a second identical edit of a line finds nothing to change |
| PoolToggleProofs.BracesBlock | internal/nginx/pooltoggle.go:90-135 | editing a block keeps its braces |
| PoolToggleProofs.BlockStays | internal/nginx/pooltoggle.go:78-139 | after the edit the same block is found, holding the edited lines |
| PoolToggleProofs.ToggleTwice | internal/nginx/pooltoggle.go:78-139 | a second identical toggle reports no change and the same text, if the pool keeps a server, and is refused otherwise |
| PoolToggleProofs.ReadBack | internal/nginx/pooltoggle.go:146-153 | reading the result back reports the requested state if and only if the pool keeps a server |
| PoolToggleProofs.ClearingEmptiesPool | internal/nginx/pooltoggle.go:52-61 | for every pool name, a text whose pool says only `server down;`: putting it in rotation succeeds, and afterwards neither edit is possible and no state can be read |
| PoolToggleProofs.OnlyServersChange | internal/nginx/pooltoggle.go:78-139 | nothing outside the block changes, and no line in it that is not a server |
| PoolToggleProofs.DownAndUpRestores | internal/nginx/pooltoggle.go:36-139 | down and up again restores the file byte for byte if and only if every server line was up and canonically spaced |
| PoolToggleProofs.DownAndUpKeepsWords | internal/nginx/pooltoggle.go:43-139 | two toggles of the whole text, whatever its spacing: lines that are no servers are untouched, and every up server that says anything keeps its words in order, its indentation and its tail |
| PoolHandler.MainConf.HandlePool | internal/lbserver/pool.go:108-200 | the file, the backup and the reply for every outcome of every step; a success reads back as asked, and the final check passes exactly when the pool keeps a server |
| PoolHandler.OriginalSurvives | internal/lbserver/pool.go:108-199 | after every reply the original text is on disk or in the backup, if and only if no write failed, left something else, and had its backup removed |
| PoolHandler.AfterTheWrite | internal/lbserver/pool.go:143-199 | once written, the backup holds the original; a failed re-read leaves the edited text, a working restore the original |
| PoolHandler.TornWriteLosesConf | internal/lbserver/pool.go:159-164 | for every pool name, a text of which a torn write leaves nothing |
| PoolRaces.OverlapNeverBoth | internal/lbserver/pool.go:108-199 | two requests for different pools that have read the same laid-out text: in any order of their further steps, and at every moment, one of the two pools is where it was |
| PoolRaces.OverlapLosesUpdate | internal/lbserver/pool.go:108-199 | both can be told of a success while the first one's change is lost |
| PoolRaces.InTurnKeepsBoth | internal/lbserver/pool.go:108-199 | when one reads what the other has written, then in any order of the rest nothing is restored, and when both have ended both pools are as asked |
| Inventory.BuildInventory | internal/nginx/inventory.go:131-261 | the single pass over the lines returns exactly the pools of the specification whose meaning `InventoryScan.PoolsOfText` states |
| InventoryProofs.ServerBackend | internal/nginx/inventory.go:96 | the scanner reads from a server line its host and port, and down exactly when the toggle does |
| InventoryProofs.ServerEdited | internal/nginx/pooltoggle.go:110-135 | a toggled server line is a server line with the same address at the requested position |
| InventoryScan.PoolsOfText | internal/nginx/inventory.go:131-221 | for a laid-out text, one pool per block, in order, with its file, its servers and its position |
| InventoryAgreement.FindsBlock | internal/nginx/pooltoggle.go:78-108 | in a laid-out text the toggle finds exactly the body of the block of that name |
| InventoryToggles.PositionsAgree | internal/nginx/inventory.go:207-217 | every position shown is the one the toggle computes |
| InventoryToggles.ToggleMovesOne | internal/nginx/pooltoggle.go:78-139 | a toggle keeps the layout, moves the named pool to the requested position with the same addresses, and leaves every other pool's report as it was |
| InventoryToggles.OthersPosition | internal/nginx/pooltoggle.go:78-153 | a toggle leaves the computed position of every other pool as it was, or as unknown |
| InventoryToggles.AgreesThroughout | internal/nginx/inventory.go:131-221 | scanner and toggle agree before and after any sequence of toggles |
| InventoryToggles.LastRequestWins | internal/nginx/pooltoggle.go:78-139 | after any sequence of toggles, one at a time, each pool is shown with its addresses at the position its last request asked for |
| ConfTree.ReadConfTree | internal/nginx/readconf.go:26-36 | the assembled text of exactly the files the walk emits; an error exactly when the main file cannot be read |
| ConfTree.EmitsOnceNearby | internal/nginx/readconf.go:38-66 | each path at most once, and only readable files at most ten includes away |
| ConfTree.EmitsReachable | internal/nginx/readconf.go:43-98 | exactly the readable files reachable through readable files, if and only if every readable file the depth guard turned away was emitted elsewhere |
| IncludeDepth.ShortChainsComplete | internal/nginx/readconf.go:38-46 | if no repeat-free chain of readable files from the main file has more than ten includes, the walk emits exactly the readable files reachable through readable files |
| IncludeDepth.ReachableNotEmitted | internal/nginx/readconf.go:38-56 | a tree in which a readable file two includes from the main file is not emitted, because the file that includes it was first reached at the full depth |
| ConfTree.TreeReadsAsDump | internal/nginx/readconf.go:21-25 | the parser reads the assembled text and nginx's own dump of the same files alike |
| Masks.MaskIs | scripts/lib/ip-lib.sh:227 | the mask is the leading ones of a 32-bit word |
| Masks.MaskCompares | scripts/lib/ip-lib.sh:228 | two addresses agree under a mask exactly when they lie in one block |
| IpGuard.OverlapsExact | scripts/lib/ip-lib.sh:209-240 | two entries whose lengths the shell can read, in base ten or eight, overlap exactly when one is not well-formed or their ranges share an address |
| IpGuard.BaseTenIsNarrower | scripts/lib/ip-lib.sh:220-227 | what the shell reads in base eight covers all that base ten would, so the check errs towards refusing |
| IpGuard.CheckProtected | scripts/lib/ip-lib.sh:252-267 | an entry passes exactly when no protected range, nor loopback, forbids it |
| IpGuard.NormalizeStable | scripts/lib/ip-lib.sh:183-194 | normalising twice is normalising once, except for an entry that gives its single-host length twice |
| IpGuard.NormalizedAgain | scripts/lib/ip-lib.sh:183-194 | such an entry for any address of either family: the second pass changes what the first one left |
| IpGuard.ReadWanted | scripts/lib/ip-lib.sh:295-320 | the loop over the lines returns the wanted sets of all lines, or the first refusal |
| IpGuard.Guard.Apply | scripts/lib/ip-lib.sh:291-355 | a refusal changes no set; a completed apply leaves exactly the wanted sets; otherwise the sets after the commands that succeeded |
| IpGuard.ReachesWanted | scripts/lib/ip-lib.sh:322-350 | a completed apply leaves each set equal to its desired set |
| IpGuard.AgainIsIdle | scripts/lib/ip-lib.sh:286-290 | applying the state that is already there issues no command |
| IpGuard.NeverMissing | scripts/lib/ip-lib.sh:286-290 | at every moment an element that was there and is still wanted is in its set, and nothing else has come in |
| IpGuard.ApplyProtects | scripts/lib/ip-lib.sh:291-355 | for any sets, input, list and number of working commands: an apply never newly blocks an address its list protects, and a completed one leaves it not blocked |
| IpGuard.ProtectedIsNeverBlocked | scripts/lib/ip-lib.sh:291-355 | through any sequence of applies, each with its own protected list, refused, aborted or completed, and from any sets: an IPv4 address that every list protects is not blocked unless it was to begin with |
| IpGuard.CompletedApplyUnblocks | scripts/lib/ip-lib.sh:291-355 | once one apply of such a sequence has completed, the address is not blocked at all, whatever the sets held |
| IpGuard.LoopbackIsNeverBlocked | scripts/lib/ip-lib.sh:252-254 | the same of every address from 127.0.0.0 to 127.255.255.255, whatever the lists |
| ProtectedLists.RefusalKeepsBlock | scripts/lib/ip-lib.sh:291-320 | for every IPv4 address outside loopback: blocked by an apply without a list, it stays blocked through the same apply with a list that protects it, which is refused |
| ProtectedLists.DottedReads | scripts/lib/ip-lib.sh:196-204 | reading a printed IPv4 address gives back its four parts |
| Nonces.NonceCache.Sweep | internal/auth/auth.go:114-120 | exactly the live nonces stay |
| Nonces.NonceCache.CheckAndStore | internal/auth/auth.go:100-112 | whether a nonce is new; a new one is kept for the time to live, one that is not new is live, and no other live nonce is lost |
| Nonces.WindowMeaning | internal/auth/auth.go:62-79 | a timestamp passes exactly when it is inside the window or too far ahead to measure |
| Nonces.NoReplay | internal/lbserver/server.go:402-418 | in one process lifetime no two accepted requests share timestamp and nonce, across endpoints and sweeps |
| Nonces.PairAccepted | internal/auth/auth.go:100-120 | exactly when two requests of one pair are both accepted |
| Nonces.TtlExact | internal/auth/auth.go:81-120 | a time to live above twice the window is not only enough but needed, for every timestamp that parses |
| Nonces.FarAheadExact | internal/auth/auth.go:70-78 | with such a time to live a pair is accepted twice exactly when the first timestamp is too far ahead to measure |
| Nonces.FarAheadWitness | internal/auth/auth.go:70-78 | a family of timestamps for which that happens under the default settings |
| Collector.StreamsEverything | internal/runner/exec.go:236-244 | in every interleaving the batches end to end are exactly the output, and `Result.Seq` is their number |
| Collector.NumbersAndLag | internal/runner/loop.go:160-182 | at every moment of every interleaving the batches are numbered 0, 1, 2 and so on, no request exceeds the limit, and at most one full batch is unsent |
| Collector.KeepaliveNumber | internal/runner/loop.go:162-173 | the number a keepalive carries, and that it is the next batch's if and only if the batches sent since it was read are exactly the one then in flight |
| Collector.KeepaliveOvertakes | internal/runner/loop.go:162-173 | a run in which the panel sees a keepalive numbered 1 before batch 0 |
| Collector.KeepaliveLags | internal/runner/loop.go:162-173 | a run in which a keepalive carries the number of a batch already sent |
| Collector.OutputIsWhole | internal/runner/exec.go:377-387 | the retained output is the whole output exactly when that fits the cap; otherwise the result says it is truncated; it never exceeds the cap by more than the notice |
| Sender.ReportSender.FlushBuffered | internal/agent/transport.go:166-190 | the drain loop leaves exactly the state of the drain, oldest first up to the first failure, on which `OnePlaceEach` and `BufferInOrder` rest |
| Sender.ReportSender.Trim | internal/agent/buffer.go:74-84 | the trim loop removes exactly the oldest files beyond the limit that can be removed |
| Sender.ReportSender.Pending | internal/agent/buffer.go:51-68 | the buffered files in the order of their names as text |
| BufferNames.NamesSortAsText | internal/agent/buffer.go:41-43 | with equally long stamps ordered as their times, the order the sender uses is the order of the file names as text |
| BufferNames.PadOrder | internal/agent/buffer.go:43 | below ten to the eighth the padded counters sort as the counters |
| BufferNames.BoundIsSharp | internal/agent/buffer.go:43 | at ten to the eighth the newer name sorts first |
| Sender.NextBackoff | internal/agent/transport.go:88-97 | a wait never exceeds the cap |
| Sender.OnePlaceEach | internal/agent/transport.go:109-190 | in any run with crashes within submissions: every report is in exactly one place, once (acknowledged, pending, trimmed or never written), plus once more for each crash between its resend and the removal of its file |
| Sender.BufferInOrder | internal/agent/buffer.go:32-84 | in any such run: what was trimmed is older than what is in the buffer, nothing acknowledged from it is newer, buffered reports are acknowledged in order, and the limit is exceeded by at most one file for each trim cut short since the last complete one |
| Sender.WithinLimit | internal/agent/buffer.go:74-84 | without a crash within a trim the buffer never exceeds its limit |
| Sender.StrictlyInOrder | internal/agent/transport.go:166-190 | without a crash between a resend and its removal, buffered reports are acknowledged in strictly rising order and all are older than what is left |
| Sender.AcknowledgedTwice | internal/agent/transport.go:181-188 | a run in which such a crash has one report acknowledged twice |
| Sender.QuietInBackoff | internal/agent/transport.go:99-115 | until a backoff is over nothing reaches the intake |
| Listing.SortSet | internal/agent/processes.go:218 | sorting gives the one ascending list of the elements |
| Processes.SelectProcs | internal/agent/processes.go:197-288 | the loops return exactly the list and flag whose meaning `SelectedIs`, `WantedExact` and `PriorityDecides` state |
| Processes.TopExact | internal/agent/processes.go:223-278 | a process leads a dimension exactly when it is eligible and fewer than N eligible ones are better |
| Processes.WantedExact | internal/agent/processes.go:191-197 | a live process is wanted exactly when it is pinned or leads somewhere |
| Processes.SelectedIs | internal/agent/processes.go:280-288 | sorted and without duplicates; exactly the wanted ones when they fit; otherwise exactly the maximum, and flagged |
| Processes.PriorityDecides | internal/agent/processes.go:191-203 | under the cap nothing of a higher priority is dropped while something of a lower one is kept |
| Processes.PinnedFirst | internal/agent/processes.go:191-203 | no live pinned process is dropped while one that is not pinned is kept |

## Left out

- HTTP, JSON, signatures and bearer tokens, the real nginx, systemctl, nft, docker and network calls: outcomes of steps; the bytes of a signature are one boolean.
- Processes, pipes and process groups of the runner, its claim loop, retries of `report`, and `setup.sh`, the swap scripts, the collectors and the small output parsers: input and output or easy members.
- `internal/nginx/fidelity.go`: its accounting skips the body of one-line location blocks, so what it claims does not hold.
- Revision order across restarts, since `appliedRevision` is memory only.
- Vhosts and locations of the inventory: only how they move the scanner in and out of blocks is modelled.
- ApplyRuns.DomainsStayDisjoint: for lower-case domains, managed files named after their application, and dumps that show every file; the owner map compares exact strings and the dump any case, so mixed case is not claimed.
- ApplyServer.Server.RunApply: an atomic replacement of a file is one map update, and the response bodies are reduced to their status.
- ApplySlot.TenureBounded: the leader's loop is a transition system over its critical sections, so that other callers can come in between; the loop itself is not a method.
- PoolHandler.MainConf.HandlePool: one request at a time; `PoolRaces` takes two at once, for different pools and with every step working. Two backups of one second share a name, which is not modelled.
- Inventory.BuildInventory: `app` and the contents of locations are dropped, as nothing proved depends on them.
- InventoryToggles.AgreesThroughout: pool names without blanks or braces in the requests; other names could match text across lines.
- ConfTree.ReadConfTree: `filepath.Glob` followed by the sort is one function from patterns to paths, and `filepath.Join` with the main file's directory another; the tree does not change during the walk.
- IpGuard.OverlapsExact: a length the shell cannot read as a number, such as `08`, or of more than 18 digits is answered by a parameter, and such an entry denotes no addresses in `ProtectedIsNeverBlocked`.
- IpGuard.ReadWanted: pathname expansion of the words of a line is not modelled.
- IpGuard.Guard.Apply: nft stores and lists the text it was given; merging and canonicalising of intervals, creating the table and persisting it are not modelled. IPv6 is compared as text, as in the source.
- Nonces.NoReplay: clock readings at the cache do not decrease, and no accepted timestamp is too far ahead to measure.
- Sender.OnePlaceEach: names can be listed and files read and removed, the clock does not run backwards, nor stand still over a stop, nor while the push counter leaves its eight digits, and a failed or interrupted write leaves no file; sends and writes may fail, and the process may die anywhere else. A sender without a buffer is not modelled.
- Collector.StreamsEverything: the scanner's limit on the length of one line, and the line it reports a read error with, are lines like any other.
- Sender.NextBackoff: the product is taken over the reals.
- Processes.SelectProcs: scores are reals; not-a-number does not occur. One candidate per process, as the caller's map guarantees.
