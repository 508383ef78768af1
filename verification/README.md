# Verified models of the MCUHome SDK

Dafny models of eight parts of the MCUHome repository and proofs of what they are for.
Each module follows one part of the source, in that part's own form: code that changes things
step by step is a class or a method with loops, code that only computes is functions.
`dafny verify dfyconfig.toml` checks everything.

| part | modules | source |
|---|---|---|
| Workspace view: a build step's shadow of a west workspace, as a file system of paths, inodes and links | FileSystem, TreeMirror, WorkspaceView, StepView, ViewResolution | `mcuhome/compiler/abi.py` |
| Patch session: patches applied once per session, by a program that may die between any two steps | PatchRecord, PatchSession | `mcuhome/compiler/abi.py` |
| Entropy core: threads, interrupts and a provider around one DRBG | EntropyCore, EntropyProtocol, EntropySafety, EntropyTheorems, EntropyReseed, EntropyProgress, EntropyTransport | `drivers/entropy/` |
| Context identity: canonical JSON, the context ID, the generator chain | Utf8, CanonicalJson, ContextId, ContextSpelling, CanonicalForm, GeneratorChain, Strings, Patterns | `mcuhome/model/context.py` |
| Reference form: registry, path, tag and digest in one string | ImageRef, ImageSpelling, ImageGrammar, Strings, Patterns | `mcuhome/model/imageref.py` |
| Release planner and gate, held against the release tooling | ReleaseWorld, ReleasePlan, ReleaseRows, ReleaseGate | `scripts/release_readiness.py`, `scripts/release.py` |
| Crash breadcrumb and watchdog | Breadcrumb, Watchdog, TornStamps | `lib/health/` |
| Firmware comparison | FirmwareCompare, IntelHex | `scripts/compare_firmware.py` |

How the parts are modelled:

- **Entropy.** `EntropyCore.Driver` has the struct's fields and the sections that run under the
  spinlock. `EntropyProtocol` interleaves them: a program counter per thread, the mutex, the
  semaphore, the provider's callbacks and a clock, with a history of what happened. The theorems
  are about every finite interleaving, and `EntropyProgress` about where each can still go.
- **View.** The methods build the view on a mutable tree of nodes with the loops and the explicit
  stack of the source. `ViewResolution.Route` says where a path leads using the original disk
  alone, and the kernel's walk through the finished view is proved to follow it.
- **Sessions, breadcrumb, watchdog.** Steps of a machine; the theorems quantify over all runs,
  with deaths, torn stores and resets anywhere: a breadcrumb may be torn at every store, over any record.
- **Versions.** PEP 440 is a parameter: which strings are versions, their order and which of them
  a specifier admits. SHA-256 is a parameter, assumed free of collisions only where a lemma says so.

Where the code and its own comments or documentation disagree, the model follows the code:

- A failed instantiation leaves `feed` unwiped and may be retried
  (`drivers/entropy/entropy_ipc_core.c:162-166`); `EntropyTheorems.FeedWipedExactly` says exactly when the feed is zero.
- `take_staged` clears the in-flight flag even when nothing was staged (`drivers/entropy/entropy_ipc_core.c:79-81`).
- A fill torn over junk can make a record appear; `Breadcrumb.TornFillOverJunk` says exactly when, and
  `Breadcrumb.SeqCountsFaults` exactly when the count survives it.
- A stamp torn at a 2^32 ms carry withholds a feed, against the comment at `lib/health/health.c:160-164`,
  once for every slot. The factor of three absorbs one slot; `TornStamps.TornStampsExactly` says exactly
  what absorbs more, and `TornStamps.TwoSlotsReset` is a reset of a healthy device with two.
- The other half of that comment fails too: a loop that stops in the middle of its own store across a carry
  is taken for alive for 2^32 ms more, not for one feed interval. `Watchdog.StopInStoreExactly` says exactly when.
- The guard of `mcuhome_health_alive` compares a handle after a cast to `uint8_t`
  (`lib/health/health.c:211`): 256 passes it. `Watchdog.GuardExactly` says exactly which handles do.
- A link out of the view does not only reach the bytes the view would have shown
  (`mcuhome/compiler/abi.py:1873-1877`): through it and back up, a patched file's original is read.
  `ViewResolution.StaleExactly` says exactly which walks do.
- A generator version may hold a semicolon when a chain is printed, though the documented claim is
  that it never does (`mcuhome/model/context.py:270-272`); the chain then does not parse.

## Model

| member | source | states |
|---|---|---|
| EntropyCore.Driver.constructor | drivers/entropy/entropy_ipc_core.c:267-278 | a fresh core is unseeded, with nothing staged, no request in flight and a zero feed |
| EntropyCore.Driver.TakeStaged | drivers/entropy/entropy_ipc_core.c:68-86 | the staged response moves to the feed whole or not at all; the staging buffer and the in-flight flag are cleared either way, and nothing else changes |
| EntropyCore.Driver.MarkRequested | drivers/entropy/entropy_ipc_core.c:101-112 | busy exactly while a request is outstanding and unexpired; otherwise the request is recorded with its expiry, and nothing else changes |
| EntropyCore.Driver.Stage | drivers/entropy/entropy_ipc_core.c:285-303 | a response is accepted exactly when it has the full seed length; an accepted one replaces what was staged, any other only ends the request |
| EntropyCore.Driver.EntropyCallback | drivers/entropy/entropy_ipc_core.c:48-60 | the callback hands out the next bytes of the feed, or refuses and changes nothing when the feed has fewer left |
| EntropyCore.Driver.RunLibrary | drivers/entropy/entropy_ipc_core.c:158-166 | one library run over any lengths it asks for: what it was given is exactly the part of the feed it drew |
| EntropyCore.CallbackIsPlain | drivers/entropy/entropy_ipc_core.c:48-60 | the unsigned comparison of the C code is the plain one in every valid state: no wrap-around, no read past feed_len |
| EntropyCore.DrawStep | drivers/entropy/entropy_ipc_core.c:48-60 | a run that asks once more draws the next stretch of the feed: the bytes of a run are consecutive |
| EntropyCore.Driver.Publish | drivers/entropy/entropy_ipc_core.c:178-185 | publishing makes the core seeded and wipes the feed, and touches nothing staged |
| EntropyCore.Driver.Reseed | drivers/entropy/entropy_ipc_core.c:200-232 | a reseed takes the staged response, feeds it to the library and leaves a wiped feed, whether the library succeeded or not |
| EntropyCore.Driver.Generate | drivers/entropy/entropy_ipc_core.c:235-265 | before seeding nothing is written; otherwise the buffer is filled front to back in chunks of at most 1024 bytes up to the first refusal, and the requests made are counted exactly |
| EntropyTransport.Endpoint.Received | drivers/entropy/entropy_mcuhome_ipc.c:123-167 | every message either stages the seed it frames or ends the outstanding request, and does nothing else to the core |
| EntropyTransport.Endpoint.Unbound | drivers/entropy/entropy_mcuhome_ipc.c:110-121 | a lost peer ends the outstanding request and leaves everything staged or in service alone |
| EntropyTransport.OnlyFramesSeed | drivers/entropy/entropy_mcuhome_ipc.c:123-167 | a message stages a seed exactly when it is the frame a peer of this version sends for one |
| EntropyTransport.MessageIsEnvironment | drivers/entropy/entropy_mcuhome_ipc.c:123-167 | what the endpoint does to the core is a step of the protocol's environment, so every theorem about runs covers it |
| EntropySafety.StepKeepsInv | drivers/entropy/entropy_ipc_core.c:144-406 | every step of every thread, interrupt, provider callback and clock keeps the invariant of locks, feed ownership, pacing and waits |
| EntropyTheorems.RunKeepsInv | drivers/entropy/entropy_ipc_core.c:144-406 | the invariant holds after every interleaving from the initial state |
| EntropyTheorems.ObeyedMeansContract | drivers/entropy/entropy_ipc_core.c:144-265 | a history the phase monitor accepts has at most one successful instantiation, none after it, no use before it and none while one runs |
| EntropyTheorems.MonitoredMeansLinear | drivers/entropy/entropy_ipc_core.c:68-86 | a history the consumption monitor accepts feeds each accepted response to at most one library run |
| EntropyTheorems.MonitoredMeansPaced | drivers/entropy/entropy_ipc_core.c:98-124 | a history the pacing monitor accepts has its requests at least 250 ms apart unless something cleared the flag in between |
| EntropyTheorems.EveryRunIsDisciplined | drivers/entropy/entropy_ipc_core.c:144-406 | in every interleaving: at most one successful instantiation and never after seeding, no generate or reseed before or during one, linear material, paced requests; and a caller is told success exactly when its own DRBG run succeeded, failure exactly when that failed |
| EntropyTheorems.Serve | drivers/entropy/entropy_ipc_core.c:235-265 | generate in place is the protocol's step: the caller is told success exactly when the core is seeded and no chunk was refused, and then has the whole buffer |
| EntropyTheorems.RefusedOnlyOn | drivers/entropy/entropy_ipc_core.c:323-406 | a caller is refused on no other ground than a provider that is not up, a first-seed wait past its deadline, an interrupt that finds no seed, or a DRBG that refuses |
| EntropyReseed.AsksWhenDue | drivers/entropy/entropy_ipc_core.c:372-385 | in every run a caller that finds nothing staged asks for a reseed exactly when the interval is over since the last seed or reseed was scheduled |
| EntropyReseed.StagedIsUsed | drivers/entropy/entropy_ipc_core.c:200-232 | in every run a caller that finds a response staged is not served before that response was used, unless a newer one was accepted meanwhile |
| EntropyProgress.NoCallIsStuck | drivers/entropy/entropy_ipc_core.c:144-406 | from every state of every run each caller inside a call can still return, with time and the threads' own steps alone: no lock stays taken and no wait has no end; with a seed in service the answer can be bytes |
| EntropyProgress.AnyCallCanBeServed | drivers/entropy/entropy_ipc_core.c:144-406 | from every state of every run a new call can be answered with bytes: at once where there is a seed, and else behind one delivery |
| EntropyProgress.SucceedsExactly | drivers/entropy/entropy_ipc_core.c:48-60 | one library run can succeed if and only if the feed has everything it draws: one refused draw is a refused run |
| EntropyTheorems.FeedIsFrozen | drivers/entropy/entropy_ipc_core.c:144-232 | from take_staged to the end of its consumption the feed is one accepted response and stays it, whatever else steps in between |
| EntropyTheorems.FeedWipedExactly | drivers/entropy/entropy_ipc_core.c:162-189 | while nobody consumes, the feed is zero exactly when the last use was not a failed instantiation (or its response was all zeroes) |
| EntropyTheorems.FailedInstallLeavesMaterial | drivers/entropy/entropy_ipc_core.c:161-167 | a concrete run: an instantiation the library refuses ends with the response still in the feed |
| EntropyTheorems.RequestIsOutstanding | drivers/entropy/entropy_ipc_core.c:101-112 | in every run, behind the locked half of request_seed the history holds a request that nothing has ended and that is younger than 250 ms; an expired one is issued again by that very step |
| EntropyTheorems.WaitIsBounded | drivers/entropy/entropy_ipc_core.c:339-370 | the first-seed wait makes at most ceil(timeout / 250 ms) + 1 rounds, and one more for every response delivered during it and for one delivered before |
| Breadcrumb.Cell.ComputeCheck | lib/health/breadcrumb_core.h:60-71 | the loop over the eight words computes the folded check, on the live record in place |
| Breadcrumb.StepInjective | lib/health/breadcrumb_core.h:66-69 | xor, the odd multiplication modulo 2^32 and the 16-bit fold lose nothing: steps that agree have equal words exactly when they have equal accumulators |
| Breadcrumb.OneWordShows | lib/health/breadcrumb_core.h:60-71 | changing one word of the eight always changes the check, whichever word and by whatever amount |
| Breadcrumb.OneWordInvalidates | lib/health/breadcrumb_core.h:60-78 | a record that differs from an intact one in exactly one of its nine words is intact in neither state |
| Breadcrumb.Cell.IsValid | lib/health/breadcrumb_core.h:74-78 | true exactly for the asked state with a matching check |
| Breadcrumb.Cell.Fill | lib/health/breadcrumb_core.h:87-107 | the nine stores in their order leave an intact live record whose number continues an intact one and is 1 over junk, and whose reason, pc, lr, cfsr, hfsr and bfar read back, each under its own name, as the fault's |
| Breadcrumb.Cell.MarkReported | lib/health/breadcrumb_core.h:110-114 | the record becomes intact and reported with its number and every field of the fault unchanged |
| Breadcrumb.Cell.ReportAtBoot | lib/health/breadcrumb.c:125-141 | a crash is told exactly for a live intact record, with its number and the fields the record holds, and is then reported and never told again; anything else is left alone |
| Breadcrumb.Cell.FaultCount | lib/health/breadcrumb.c:112-119 | the number of an intact record in either state, and 0 over junk |
| Breadcrumb.TornFillInvalid | lib/health/breadcrumb_core.h:87-107 | a fill over an intact record torn right after its first store that changes anything leaves no intact record |
| Breadcrumb.TornFillOverJunk | lib/health/breadcrumb_core.h:87-107 | over any junk, a fill torn after its first store that changes anything leaves an intact record exactly when the junk's check word already is the check of the junk with that one word replaced |
| Breadcrumb.TornFillInvents | lib/health/breadcrumb_core.h:87-107 | both kinds of such junk exist: a dead state word the first store revives, and a live one beside a wrong number the second store corrects |
| Breadcrumb.TornFillsApart | lib/health/breadcrumb_core.h:87-107 | whatever the record was, of two tears with one changed word between them at most one leaves an intact record |
| Breadcrumb.TornFillNumber | lib/health/breadcrumb_core.h:87-107 | a fill torn anywhere that leaves a new intact record leaves the next number in it, except junk revived by the store of the state word alone |
| Breadcrumb.TornReportInvalid | lib/health/breadcrumb_core.h:110-114 | a report torn between its two stores leaves no intact record |
| Breadcrumb.SeqCountsFaults | lib/health/breadcrumb_core.h:73-114 | over any run of faults, reports, resets, clobbering and tears at every store over any record, the number of an intact record is the fills since it was last lost, modulo 2^32, at every moment if and only if no tear behind the very first store revives junk that carries another number |
| Breadcrumb.NestedFaultsAddNothing | lib/health/health.c:114-130 | from the first fault of a boot to the reset, further faults change neither record nor count |
| Breadcrumb.BootTellsTheLastFault | lib/health/breadcrumb.c:125-141 | over any run, the crash a boot tells is the fault that was filled last, numbered by the fills since the record was last lost, and it is told once |
| Watchdog.SlotTable.Register | lib/health/health.c:176-207 | a handle is given exactly for a positive budget and a free slot, the new slot is fresh, and a refusal changes nothing |
| Watchdog.SlotTable.Alive | lib/health/health.c:209-215 | for every handle: a known one's stamp becomes now, every other slot is untouched, and the store lands outside the table exactly for a handle of 256 or more that is known modulo 256 |
| Watchdog.GuardExactly | lib/health/health.c:211-211 | the guard admits just the known handles, except exactly those of 256 or more that are known modulo 256; 256 itself is admitted as soon as one slot is registered |
| Watchdog.SlotTable.StaleSlot | lib/health/health.c:218-228 | the first slot in registration order that is silent beyond its budget, and none exactly when all are fresh |
| Watchdog.SlotTable.FeedWork | lib/health/health.c:230-249 | the watchdog is fed exactly when every slot is fresh, and the next pass is scheduled in any case |
| Watchdog.SilenceResets | lib/health/health.c:218-305 | a slot nothing stamps any more, of which nothing newer than s can be read, resets the device by max(arm time, s + budget) + timeout, whatever the others do, however late or torn the passes are, and also in the middle of its own store |
| Watchdog.NewestReading | lib/health/health.c:156-166 | a store under way is read as newer than the stamp it stores if and only if the low half wraps in it, and at a carry as the old stamp plus 2^32 ms |
| Watchdog.StopInStoreExactly | lib/health/health.c:156-166 | a loop that stops in the middle of its own store resets the device in time in every run if and only if the low half of the stamp does not wrap in that store |
| Watchdog.MisreadFeeds | lib/health/health.c:156-166 | against the comment: behind such a carry an on-time feeder feeds at every single pass until the old stamp plus 2^32 ms and the budget are over |
| Watchdog.HealthNeverResets | lib/health/health.c:149-154 | while every slot is fresh at every pass and the feeder is late by less than two intervals, no run resets |
| TornStamps.TornOnlyAtCarry | lib/health/health.c:156-166 | a stamp read between its two stores is one of the two stamps unless the low half wraps, and then it is off by exactly 2^32 ms |
| TornStamps.TornWithholdsFeed | lib/health/health.c:156-166 | the comment's claim fails: two fresh stamps whose torn read is stale |
| TornStamps.LossCrosses | lib/health/health.c:156-166 | a fresh slot is read as stale only in the middle of a store across a carry |
| TornStamps.OneLossPerCarry | lib/health/health.c:156-228 | over every run in which a store is over before the next pass, two feeds lost to one slot have a carry of its stamp between them: at most one feed per slot and carry |
| TornStamps.TornStampsNeverReset | lib/health/health.c:149-249 | over every such run with fresh loops, the device is never reset while the timeout is longer than one round more than the slots can lose between them, a round being the interval and the largest lateness |
| TornStamps.TornStampsExactly | lib/health/health.c:149-249 | and that is exact: with n slots no run of the machine resets if and only if (2n + 1) rounds are shorter than the timeout where budgets may be any uint32_t, and if and only if (n + 1) rounds are where every budget leaves room for the timeout below 2^32 ms |
| TornStamps.OneSlotIsAbsorbed | lib/health/health.c:149-154 | the factor of three absorbs the torn stamps of one slot and passes less than half an interval late |
| TornStamps.TwoSlotsReset | lib/health/health.c:149-166 | it does not absorb those of two: a run with fresh loops and no late pass resets at three intervals; the defaults stand four slots if and only if passes are less than 2 s late |
| FileSystem.Tree.MkdirParents | mcuhome/compiler/abi.py:1891-1891 | exactly the missing ancestors and the directory itself appear |
| FileSystem.Tree.LinkOrCopy | mcuhome/compiler/abi.py:1779-1783 | the name appears with the source's inode where a link can be made, and otherwise with a fresh inode of the same bytes |
| FileSystem.Tree.Symlink | mcuhome/compiler/abi.py:1896-1896 | one name appears, with the given text, and nothing else changes |
| TreeMirror.Entry | mcuhome/compiler/abi.py:1774-1783 | a directory entry gets its twin: a directory, the same link text, or the same bytes |
| TreeMirror.MirrorDirectory | mcuhome/compiler/abi.py:1768-1783 | one pass of the explicit stack: its directory's entries are reproduced or skipped and every new directory waits on the stack |
| TreeMirror.MirrorTree | mcuhome/compiler/abi.py:1734-1783 | the whole tree is reproduced - every entry that is not skipped, and nothing else - on any source, skip set and linkability, and the original is untouched |
| WorkspaceView.LinkEntries | mcuhome/compiler/abi.py:1890-1896 | a real directory gets a link for every entry that is neither on the way to a root nor a root, and only for those |
| WorkspaceView.MirrorLayer | mcuhome/compiler/abi.py:1897-1898 | a layer's place in the view becomes its complete twin and no other place changes |
| WorkspaceView.Substitute | mcuhome/compiler/abi.py:1908-1910 | the substitute is linked by name over a path of real directories |
| WorkspaceView.BuildView | mcuhome/compiler/abi.py:1786-1918 | for pairwise non-nested roots the view is built exactly when the directories on the way and the mirrored layers exist; then every node under it is determined and everything outside is as before |
| StepView.PatchedCopy | mcuhome/compiler/abi.py:1668-1698 | the copy has the tree's own bytes in fresh inodes |
| StepView.CopyPatched | mcuhome/compiler/abi.py:1940-1947 | exactly the patched layers of the record, the SDK excepted, are copied, and each once |
| StepView.SeparateRoots | mcuhome/compiler/abi.py:1940-1954 | a record whose layers are not nested gives every root of the view one role and none inside another |
| StepView.Viewed | mcuhome/compiler/abi.py:1921-1958 | the step's view is complete exactly when every tree it needs is there, said of the workspace's own layers; the SDK's place is an absolute link to the delivered tree and a walk through it lands where the walk from that tree lands; every other layer shows its own tree, patched ones in fresh inodes; the rest on the way is linked to the original; the record moves onto the view, and no original changes |
| StepView.RebasedExactly | mcuhome/compiler/abi.py:1570-1603 | a moved record has the same layers, each at its old place below the new top, and nothing else of it changes |
| StepView.RebasedKeepsPlaces | mcuhome/compiler/abi.py:1570-1603 | every layer keeps its place inside the workspace, and a record is refused exactly when a layer lies outside |
| StepView.RebasedTwice | mcuhome/compiler/abi.py:1570-1603 | moving a record twice is moving it once: a view is one more place a workspace is unpacked at |
| ViewResolution.RouteIsWalk | mcuhome/compiler/abi.py:1786-1918 | the kernel's walk through the finished view, `..` and links included, goes where a route computed on the original alone says |
| ViewResolution.FoundInView | mcuhome/compiler/abi.py:1786-1918 | whatever a walk finds in the original, the same walk finds in the view with one more link allowed, unless it enters the SDK or climbs out of the top |
| ViewResolution.LandsWhereItWas | mcuhome/compiler/abi.py:1786-1918 | wherever a walk through the view lands, the same walk through the original lands on the corresponding path |
| ViewResolution.WorkspacePath | mcuhome/compiler/abi.py:1786-1918 | a workspace path resolves to itself inside the view in a layer and on the way to one, and to the original elsewhere |
| ViewResolution.ManifestPath | mcuhome/compiler/abi.py:1899-1910 | a path through the manifest directory resolves below the delivered SDK tree, for one link |
| ViewResolution.SameBytes | mcuhome/compiler/abi.py:1786-1918 | in a fresh view every place shows the original's directory or bytes: a patched layer's in an inode of its own, everything outside in the original's |
| ViewResolution.PatchIsIsolated | mcuhome/compiler/abi.py:1668-1698 | no file of a patched copy shares an inode with any file of the original |
| ViewResolution.OriginalsSurvive | mcuhome/compiler/abi.py:1668-1698 | whatever sequence of files and directories the patches write, make, remove and rename in patched layers, the original keeps every name, what it is, and every byte |
| ViewResolution.MirrorIsShared | mcuhome/compiler/abi.py:1744-1756 | a hard-linked mirror does share its inode: nothing but this program's restraint protects a writable layer |
| ViewResolution.StaleBehindAnEntry | mcuhome/compiler/abi.py:1869-1880 | the documented claim fails: through any linked directory and back up, the original of a patched file is read instead of its copy |
| ViewResolution.StaleExactly | mcuhome/compiler/abi.py:1869-1880 | a walk that lands on a patched layer's file reads the stale original exactly when it took the link of a plain entry or an absolute link |
| PatchRecord.AnyReaderAgrees | mcuhome/compiler/abi.py:491-493 | any reader that follows the JSON grammar finds a record cut anywhere complete exactly when it is a complete record with at most the last newline missing |
| PatchRecord.StartedIsNotComplete | mcuhome/compiler/abi.py:491-493 | no prefix of a started record reads as complete |
| PatchRecord.RecordReadsBack | mcuhome/compiler/abi.py:491-493 | a record read field by field says which layer it is of, which patch set, and how far that is |
| PatchSession.StepKeepsInv | mcuhome/compiler/abi.py:977-1067 | every micro-step of an invocation, a partial write and a death in git included, keeps the session's invariant |
| PatchSession.OncePerSession | mcuhome/compiler/abi.py:977-1067 | over any number of invocations and deaths: no record means a pristine tree, complete means exactly all patches in their order, no patch enters a tree twice, and success means every layer is complete |
| PatchSession.LockedIsWellFormed | mcuhome/compiler/abi.py:1056-1056 | sorting each directory's names by their bytes gives every layer one strictly ascending patch order, however the file system lists them |
| PatchSession.OnceInByteOrder | mcuhome/compiler/abi.py:977-1067 | a complete layer holds every file of its directory exactly once, put in in ascending byte order of the names, over any number of invocations and deaths |
| PatchSession.SettledForGood | mcuhome/compiler/abi.py:1042-1054 | once the program is done with a layer no later invocation touches its record or tree, and if it is not complete none succeeds |
| PatchSession.NewInvocation | mcuhome/compiler/abi.py:1042-1054 | a layer started and not complete makes every new invocation refuse without touching it |
| PatchSession.Session.ApplyLayer | mcuhome/compiler/abi.py:1055-1066 | started, the patches in order up to the first git refuses, complete: a path of the crash machine, failing exactly where git refuses |
| PatchSession.Session.ApplyPatches | mcuhome/compiler/abi.py:977-1067 | an undisturbed invocation is a path of the crash machine; it succeeds exactly when every layer has a usable tree and a complete record or patches git takes, and otherwise names the layer and the reason |
| Utf8.DecodeEncoded | mcuhome/model/context.py:963-963 | an encoded code point is read back by the byte ranges of section 3 of RFC 3629, whatever follows |
| Utf8.EncodedExactly | mcuhome/model/context.py:963-963 | the code points that have an encoding and the byte sequences that are one character by section 4 of RFC 3629 are one to one: no surrogate has one, and no other sequence is one |
| Utf8.EncodesExactly | mcuhome/model/context.py:963-963 | a text is encoded exactly as the bytes that spell its characters in order, and not at all exactly where none do |
| Utf8.OrderIsByteOrder | mcuhome/model/context.py:53-57 | code-point order of texts is byte order of their encodings |
| Utf8.EncodeInjective | mcuhome/model/context.py:963-963 | texts with one encoding are one text |
| CanonicalJson.ReadEscaped | mcuhome/model/context.py:740-754 | every escape the printer writes is read back as its character by the grammar of section 7 of RFC 8259 |
| CanonicalJson.PrintUnique | mcuhome/model/context.py:740-754 | a printed value shows where it ends and what it was, for any texts and whatever follows |
| CanonicalJson.CanonicalUnique | mcuhome/model/context.py:740-754 | equal canonical strings are equal documents up to the order their dictionaries were filled in |
| CanonicalJson.NormalSorts | mcuhome/model/context.py:740-754 | sorting a dictionary's entries keeps its keys and puts them in strictly ascending order |
| CanonicalJson.FillingOrderIsIrrelevant | mcuhome/model/context.py:740-754 | two dicts have one canonical string if and only if they hold the same at every key, in whatever order they were filled |
| ContextId.RequireFiles | mcuhome/model/context.py:890-911 | no refusal exactly when every entry is spelled right, none is reserved and no path is named twice; otherwise the first offender decides |
| ContextSpelling.AcceptedExactly | mcuhome/model/context.py:757-911 | an input is accepted exactly when every hash, name and version matches its regular expression, the SDK hash is the one its environment takes, the board is not blank, and the paths are slash-separated names, not reserved and distinct |
| ContextSpelling.NameIs | mcuhome/model/context.py:230-232 | the package names accepted are exactly the texts their regular expression matches |
| ContextSpelling.PathsStayApart | mcuhome/model/context.py:871-887 | an accepted path leads below any directory it is unpacked in, and no two lead to one place |
| ContextId.SortsAgree | mcuhome/model/context.py:53-57 | sorting the list by the bytes of its paths and by their code points gives one list |
| ContextId.SortAscends | mcuhome/model/context.py:959-959 | the sorted list of distinct paths is strictly ascending |
| ContextId.AscendingUnique | mcuhome/model/context.py:959-959 | there is one ascending list of given entries: the sort forgets the order it was given |
| ContextId.ComputeId | mcuhome/model/context.py:914-964 | an ID exactly for inputs that pass every check and can be encoded; otherwise the first failing check, in the order environment, SDK hash, board, files, is the refusal |
| ContextId.CanonicalIdentifies | mcuhome/model/context.py:740-964 | the canonical document is uniquely decodable: equal strings exactly for the same SDK hash, the same environment, board and file set, URLs left out |
| ContextId.IdIdentifies | mcuhome/model/context.py:914-964 | wherever SHA-256 does not collide, equal IDs are equal inputs, and a pinned environment is never taken for a developer one |
| ContextId.IdIgnoresOrder | mcuhome/model/context.py:914-964 | a permuted file list passes the same checks and has the same ID |
| CanonicalForm.EscapeExactly | mcuhome/model/context.py:740-754 | of all texts a JSON reader takes for a character, the printed one is the only shortest one without a capital hexadecimal digit (section 3.2.2.2 of RFC 8785) |
| CanonicalForm.CanonicalIsTight | mcuhome/model/context.py:740-754 | no blank stands between the tokens of a canonical string |
| CanonicalForm.DocumentSpelled | mcuhome/model/context.py:740-964 | the hashed text, word by word, for every context: its four members, their names and order, and the files ascending |
| GeneratorChain.ParseChain | mcuhome/model/context.py:299-326 | every link is split at its first colon and checked, and the first bad one is the refusal |
| GeneratorChain.ProductIs | mcuhome/model/context.py:229-229 | the products accepted are exactly the texts their regular expression matches |
| GeneratorChain.LinkIs | mcuhome/model/context.py:299-326 | a link is read as an entry exactly when it is a product, a colon and a version, each spelled as it must be |
| GeneratorChain.ChainIs | mcuhome/model/context.py:299-326 | a string is read as a chain exactly when its parts between semicolons are the links of that chain, in order |
| GeneratorChain.FormatParsed | mcuhome/model/context.py:279-326 | what was parsed prints back exactly |
| GeneratorChain.ParseFormatted | mcuhome/model/context.py:279-342 | what was printed parses to the same entries exactly when no version holds a semicolon, and is refused otherwise: never to different ones |
| GeneratorChain.FormatRefuses | mcuhome/model/context.py:279-296 | a chain that is refused is the reading of no string at all, and its first entry that is not legal decides the refusal |
| GeneratorChain.ReadableExactly | mcuhome/model/context.py:279-327 | the chains some string reads as are exactly those that print and hold no semicolon in a version, and each is the reading of one string only |
| GeneratorChain.FormatInjective | mcuhome/model/context.py:279-296 | two chains without semicolons in their versions that print alike are one |
| ImageRef.ParsedIsWellFormed | mcuhome/model/imageref.py:143-216 | every part of an accepted reference is well formed and its registry is the default or one docker recognises |
| ImageRef.ParsePrintedExactly | mcuhome/model/imageref.py:122-216 | a printed reference is read back as it was, under any default, exactly when its registry is one docker recognises |
| ImageRef.PrintInjective | mcuhome/model/imageref.py:122-129 | two references with recognisable registries that print alike are one |
| ImageRef.RunsThePin | mcuhome/model/imageref.py:107-140 | pinning refuses exactly what is no digest; the pinned form reads back, and the runnable form names the same bytes without the tag |
| ImageSpelling.PathIs | mcuhome/model/imageref.py:60-69 | the hand-written recognizer of a repository path accepts exactly the texts its regular expression matches |
| ImageSpelling.RegistryIs | mcuhome/model/imageref.py:54-58 | the same of a registry |
| ImageSpelling.TagIs | mcuhome/model/imageref.py:71-72 | the same of a tag |
| ImageSpelling.DigestIs | mcuhome/model/imageref.py:74-78 | the same of a digest |
| ImageGrammar.ParsesExactly | mcuhome/model/imageref.py:143-216 | a reference is read from exactly the texts that spell it, each part by its regular expression: behind a registry docker recognises, or with none on the default where the first component could not be taken for a host |
| ImageGrammar.StripExactly | mcuhome/model/imageref.py:147-147 | stripping cuts blanks off both ends, all of them and nothing else |
| ReleaseWorld.CandidatesAscend | scripts/release_readiness.py:280-312 | the candidates of a line are listed oldest first |
| ReleaseWorld.LastIsNewest | scripts/release_readiness.py:810-813 | the last satisfying candidate is the newest, and there is one wherever any satisfies |
| ReleaseWorld.NewestAcceptingIsNewest | scripts/release_readiness.py:1120-1129 | the newest published version above that takes this one, and none exactly where none does |
| ReleaseWorld.NewestIsLast | scripts/release_readiness.py:1120-1129 | searching backwards and filtering forwards find the same version: two of the resolvers agree |
| ReleaseWorld.ResolveBelow | scripts/release_readiness.py:1132-1172 | the loop resolves the chain newest by newest, and blocks exactly when a link is missing |
| ReleaseWorld.VerifyAgreesForSdk | scripts/release.py:258-317 | once published with what it declared, an SDK is verified in the chain the gate resolved, and refused exactly when the gate was blocked |
| ReleaseWorld.VerifyAgreesForWorkspace | scripts/release.py:318-344 | once published, a workspace is verified and its image assembled with the tools the gate resolved and the newest SDK that takes it |
| ReleasePlan.IdsAreDistinct | scripts/release_readiness.py:687-699 | an identifier never names two combinations: one is this commit's own three packages, and every other is numbered by its place |
| ReleasePlan.Planner.Add | scripts/release_readiness.py:687-699 | a triple is built once: the combination answered is its own, and the identities stay distinct |
| ReleasePlan.DownFits | scripts/release_readiness.py:848-860 | under the tag rule a downward triple has exactly one checkout stage |
| ReleasePlan.UpFits | scripts/release_readiness.py:862-874 | under the tag rule an upward triple has exactly one checkout stage |
| ReleasePlan.SdkOverIsNewest | scripts/release_readiness.py:827-846 | the SDK above is the newest published that takes the workspace, and this commit's, or none, only where none does |
| ReleasePlan.ToolsUnderAreNewest | scripts/release_readiness.py:815-825 | where a workspace admits published tools, the newest of them is what it is built over |
| ReleasePlan.TriedOverTheEnds | scripts/release_readiness.py:994-1003 | a line is tried over the lowest and the highest published version of the range it declares |
| ReleasePlan.Planner.Downward | scripts/release_readiness.py:974-1025 | every row points at the combination of its own subject's triple and is required exactly when that holds together |
| ReleasePlan.Planner.Upward | scripts/release_readiness.py:1028-1092 | the same for the rows of the stage above |
| ReleasePlan.MarkComparisonSubject | scripts/release_readiness.py:905-930 | the mark goes to a consistent combination with the most checkouts, the first of them, and to no other |
| ReleasePlan.OneSubject | scripts/release_readiness.py:905-930 | exactly one combination is marked if any is consistent, and none otherwise |
| ReleasePlan.BuildPlan | scripts/release_readiness.py:757-902 | every plan is well formed: distinct triples and identifiers, required exactly when both constraints admit the stage below, rows at existing combinations, one subject, one checkout under the tag rule |
| ReleaseRows.PlanIs | scripts/release_readiness.py:757-930 | every row of every plan, by the published releases alone: its combination holds the row's own subject at the neighbouring stage, this commit's package at the line's own, and at the third the newest published version that fits or this commit's where none does; it has one exactly where that exists; a line is tried over the two ends of its range and this commit's; and a combination is required exactly when both constraints admit what is below |
| ReleaseRows.CandidatesExactly | scripts/release_readiness.py:280-312 | the candidates of a line are exactly the releases whose tag is its prefix and a version |
| ReleaseRows.ConstraintExactly | scripts/release_readiness.py:320-340 | what a package asks of a line below is the one requirement that names it |
| ReleaseRows.ChainIs | scripts/release_readiness.py:1132-1172 | the chain a release resolves to, link by link: the newest below it that it admits, and the newest below that; blocked exactly where one is missing |
| ReleaseGate.SdkLastRow | scripts/release_readiness.py:974-1025 | the last row of an SDK's own direction asks for the chain a user resolves, and that triple holds together |
| ReleaseGate.WorkspaceRows | scripts/release_readiness.py:1028-1092 | a workspace is tried exactly where a published SDK takes it, last under the newest such SDK |
| ReleaseGate.Wanted | scripts/release_readiness.py:1268-1275 | the combinations the rows name, each once, and none exactly when no row has one |
| ReleaseGate.ResolveAbove | scripts/release_readiness.py:1175-1201 | the loop upwards: published where one takes the version below, else this commit's |
| ReleaseGate.ChainAround | scripts/release_readiness.py:1344-1388 | the fallback takes the release, the resolved chain below it and what is above, required exactly when it holds together |
| ReleaseGate.BuildGate | scripts/release_readiness.py:1204-1309 | blocked exactly when a link below is missing; an unblocked SDK gate never falls back and its last row is the required chain below; a workspace gate falls back exactly when no published SDK takes it; every ordinary combination takes only the tagged line from this commit; and every row of an unblocked gate is the one the published releases alone decide |
| ReleaseGate.StartedIs | scripts/release_readiness.py:1344-1388 | the fallback, by the published releases alone: the release, its chain below and the newest that takes it above, or this commit's where none does |
| ReleaseGate.SdkIsVerified | scripts/release.py:258-317 | after publication the verification of an SDK resolves the very packages of the combination the gate marked to verify |
| ReleaseGate.WorkspaceIsVerified | scripts/release.py:318-344 | after publication a workspace is verified, and its image assembled, from the very packages the gate marked, and refused exactly after a line start |
| ReleaseGate.GatePackages | scripts/release.py:368-400 | every line some combination takes from this commit is built, the released one without suffix, and nothing else |
| ReleaseGate.JobsExactly | scripts/release.py:368-400 | a line is built exactly where a combination takes it from this commit: the tools once on each platform, the others once, released where one combination releases it, and a stand-in with a suffix, except the workspace |
| ReleaseGate.BuildsOnlyTheTagged | scripts/release.py:368-400 | a tag that published neighbours decide builds and releases its own line only |
| FirmwareCompare.RunsOfDifference | scripts/compare_firmware.py:115-135 | the runs cover every difference, start and end at one, join differences at most 8 apart and lie more than 8 apart, in ascending order |
| FirmwareCompare.GroupingUnique | scripts/compare_firmware.py:115-135 | that grouping is unique: the answer is determined by the two images |
| FirmwareCompare.ReportedCount | scripts/compare_firmware.py:168-173 | the reported number bounds the differing bytes from above and is exact exactly when no run joins over a matching byte |
| IntelHex.Collect | scripts/compare_firmware.py:78-94 | each data record gets the base its position has, nothing after an end-of-file record is read, and a line too short to carry a kind is an error |
| IntelHex.BaseIs | scripts/compare_firmware.py:87-90 | the base is zero until an extended address record sets it, sixteen times its number for a segment and 65536 times for a linear one, and the latest counts |
| IntelHex.DataIs | scripts/compare_firmware.py:81-86 | a data record's bytes lie at its own address above the base, in order |
| IntelHex.LowestAddress | scripts/compare_firmware.py:97-97 | an address some record has and none undercuts |
| IntelHex.Assemble | scripts/compare_firmware.py:95-105 | records in any order, overlapping or empty: the image runs from the lowest address to the highest end and agrees with a last-writer-wins memory everywhere |
| IntelHex.LastWriterWins | scripts/compare_firmware.py:99-104 | a covered byte is the one of the last record that holds it |
| IntelHex.GapIsErased | scripts/compare_firmware.py:99-104 | a byte no record holds is 0xFF |
| IntelHex.OrderIsIrrelevant | scripts/compare_firmware.py:99-104 | records that never disagree describe one image in whatever order they are listed |

## Left out

- `mbedtls_ctr_drbg_*`: an abstract library run that calls the entropy callback any number of times and may fail.
- The read of `next_reseed_uptime` outside the lock is one step, and a response counts as delivered when its semaphore is given.
- EntropyTheorems.RefusedOnlyOn: a refusal is one failure; that an interrupt is answered -ENOTSUP where a thread is answered -EIO, and the -EINVAL for an empty buffer, are not told apart.
- Memory order and the store buffers of a real core; stores of the breadcrumb happen in program order.
- `lib/health/health.c` logging, reboot and the hardware watchdog's own configuration; a reset is an event.
- SHA-256 and PEP 440 are parameters; of the regular-expression engine the model has what a pattern matches, and a hand-written recognizer proved to accept the same.
- Values of a wrong type (a number where a string belongs): every field has its type, so such a refusal does not occur.
- `parse_environment`, `from_dict` and `to_dict` of the context documents: readers and writers of YAML.
- File modes, `_make_writable`, and the permission bits a hard link shares.
- Operating-system failures that depend on nothing in the model (no space, no permission): a view is refused only for what is missing.
- WorkspaceView.BuildView: does not cover layer roots that lie inside one another, most of which the source refuses with a mkdir that accepts no existing directory, nor a place for the view that is already taken.
- StepView.Viewed: does not follow a layer root, or a directory on the way to one, that is itself a symbolic link; the model refuses it, the source goes through it.
- TreeMirror.MirrorTree: does not fix the order of entries the source sorts; the loops take them in any order and end in the same tree.
- A crash of the machine between a write and its `fsync`; a death is a death of the program.
- git, docker, west, `gh`, the archive writers and every other foreign program: git's outcome is an input of the patch session.
- Labels, notes, verdict texts and reasons of the release plan, and the messages of every refusal.
- A release that carries a meta file nobody can read; `resolvable` reads one document per version.
- ReleaseGate.BuildGate: its last-row clauses take it that no two published releases carry one tag, as git has it.
- What a handle past the slot table overwrites; the model says when that store happens, not what it hits.
- Line splitting and hexadecimal decoding of an Intel HEX text: the records start as byte strings.
- `mcuhome/compiler/generate.py`, `mcuhome/model/jobs.py`, `mcuhome/compiler/report.py`, `lib/health/image_confirm.c` and the memory-report parser: they would only add easy members.
