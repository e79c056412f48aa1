# BlueDBM flash cluster: verification model

A Dafny model of the parts of this repository that carry a protocol or an
algorithm, with proofs of what those parts are for.  `dafny verify
dfyconfig.toml` checks all of it.

Each part is written twice where the source changes state in place: a
transition system or specification function, over which the theorems are
proved for every run, and a class or method with the source's own fields,
loops and branches, whose contract says that it does exactly what the
transition system says.

| files | what they model |
|---|---|
| `BurstPath`, `BurstMemory`, `BurstDevice` | the DMA write path of `flashemul/Interface.bsv`: words of 64 tags buffered, grouped into bursts and streamed to host pages, and what host memory then holds |
| `PagePath`, `PageFlush`, `PageOrders`, `PageDevice` | the host's tag pool (`flashemul/main.cpp`) joined to that interface by commands, page tags and indications; what the host may conclude from a free tag |
| `MorrisPratt`, `MorrisPrattSearch`, `MorrisPrattPairing` | the table builders and the searcher of `projects/flash_strstr_raw/mp.h`, and tables that are not the pattern's own |
| `MatchEngine`, `MatchResults`, `MatchDevice` | the pipelined search engine of `projects/flash_strstr_raw/MPEngineBDBM.bsv`, which is what the driver's table is given to, and the division of a haystack among several |
| `FlashHost`, `FlashClient`, `FlashDiscipline`, `FlashDevice` | the request protocol of `projects/flash_multinode`, for any client |
| `FlashCluster`, `FlashVerdict`, `FlashRuns`, `FlashProgress`, `FlashPlans`, `FlashScripts`, `FlashChecks`, `FlashSharing`, `FlashTestsAreClients` | the tests that run on it, for any number of hosts on one fabric: what they ask for, what they check, when they pass |
| `I2CMaster`, `I2CBus`, `I2CRoundTrip`, `I2CProgress`, `I2CDevice` | the I2C master of `flashemul/I2CSimple.bsv`, heard by a listener that follows UM10204 |
| `AuroraLinks`, `AuroraProcess` | the Aurora link emulation over named pipes, `xilinx/aurora_64b66b/bdpi.cpp` |
| `FlashStore` | the emulated flash of `projects/test/storagebridge.cpp` |
| `FlashInterface` | command credits and buffers of `projects/test/flashinterface.cpp` |

## What is assumed

- A Bluespec rule or method is one atomic step; so is a section of C++ code
  under a lock, and the data check before the lock in `readDone`.  Every
  interleaving of the steps is a run.
- The memory engines execute their `start` commands in order, each for exactly
  its number of words.  A word counts as written to memory when the engine takes
  it from its FIFO.  The offset registers are wide enough for 64 pages.
- `readPage` of the host interface queues the tag of the command at the head of
  the FIFO, not its argument (`flashemul/Interface.bsv:235`), after `getCommand`
  has removed it.  The platform's rule calls both at once
  (`src/bluedbm_platform/test_platform/BlueDBMPlatform.bsv:297-326`), so both
  see the same head: the two calls are one step here.  The platform delivers
  one page of 1024 words for every read command it takes.
- An indication sent to the host is accepted at once.  The number of commands the write
  engine can queue is left open: starting a burst without room for its command is one
  of the runs here, but `NeverWedged` holds without it, and `Drains` and `Completes` start a burst
  only when no command is outstanding (`NextFlush`).
- The increments of `pageReadTotal` do not interfere with each other: indications are
  handled by one thread.
- The flash fabric of the cluster answers each request once, in any order.  The
  theorems about verdicts add that it stores what is written to an erased block
  and returns it; those about tags and counters do not need that.  The hosts
  of one test are all in that test, as the test itself presumes.
- Slaves on the I2C bus keep their data still while SCL is high (UM10204,
  section 3.1.3).  The prescaler only says when a tick comes, so ticks come at
  any time.
- Pipes of the link emulation move whole 8-byte words and a reading end can always
  be opened.  Callers read only after `bdpiRecvAvailable` has returned true, and
  use ports that have a peer.
- The search engine finds the haystack in its FIFO as it needs it; whether its rule waits for data
  when the end has come is left open.  Its needle and table are loaded whole, and the needle is shorter
  than the 1024 places of its memory.
- C integers are wide enough for the indices and counters of the matcher and the
  tests; where the width matters (`hashAddrToData`, the byte offsets of the
  emulated flash) it is a theorem.
- `getPageOffset` has no return statement (`projects/test/storagebridge.cpp:51-53`);
  the offset it computes is taken as its result.  `dstBufferBusy` is declared with
  the write count but scanned to the read count
  (`projects/test/flashinterface.cpp:18,114`); it has the read count here.

## What the code does that its documentation does not say

- The table builders read their pattern from index 1, the searcher from index 0
  (`projects/flash_strstr_raw/mp.h:68,79,92`), and the driver gives the same pointer
  to the builder (`projects/flash_strstr_raw/test.cpp:122`).  A table makes the searcher of `mp.h`
  right on every text if and only if it makes it fall as the pattern's own table would
  (`RightIffSameFalls`); for "aab" the driver's table does not and an occurrence
  is missed (`PairingMisses`); for the needle the driver ships it does, whatever
  byte follows it (`ShippedNeedleIsRight`).
- The searcher of `mp.h` is called by nobody: the driver gives needle and table to the search engine
  (`projects/flash_strstr_raw/test.cpp:168-173`).  That one looks for the end of the haystack before
  the end of the needle (`projects/flash_strstr_raw/MPEngineBDBM.bsv:174-184`), so it reports what the
  searcher reports without reading the last character (`EngineReports`): it is right if and only if no
  greedy occurrence ends there (`EngineRightIff`), and never finds a needle that is the whole haystack
  (`WholeHaystackMissed`).  With several engines only the last part of the haystack suffers, since the
  others read on (`SplitSearchCovers`).  The results about tables hold of the engine too
  (`EngineRightIffSameFalls`, `PairingMissedByEngine`, `ShippedNeedleFound`).  With an empty needle it
  never ends (`EmptyNeedleNeverEnds`).
- The searcher starts over after a report (`mp.h:101`), unlike the procedure in its
  header, so it reports the leftmost non-overlapping occurrences.  For the empty
  pattern the reports are not those (`EmptyPattern`); for every other pattern they are.
- `pageReadDone` is raised when the last burst of a page starts
  (`flashemul/Interface.bsv:149-153`), so the page is never whole in memory when it is
  announced (`AnnouncedTooEarly`), and `waitTagFlush` can return without it
  (`FlushReturnsEarly`).  After the announcement, while no new burst of its tag has started,
  the page is there if and only if none of its words is in flush or in the engine's FIFO
  (`AnnouncedInMemoryIff`, `IdleTagInMemoryIff`); after `waitTagFlush`, all pages are there if and
  only if the engine has finished all its commands (`FlushedInMemoryIff`).
  `FlushedPagesArrive` says that the steps already due bring them there.
- The handler of `pageReadDone` counts its page after it has freed the tag and released the mutex
  (`flashemul/main.cpp:124-127`), where that of `pageWriteDone` counts before
  (`flashemul/main.cpp:106-109`).  So `pageReadTotal` can be short when `waitTagFlush` returns,
  and `src/bluedbm_platform/test_platform/platform.cpp:178-180` reports it then.  The totals are
  right if and only if no handler has still to count (`FlushedMeansComplete`); the run of
  `FlushReturnsEarly` is one in which they are not.
- `many_to_many_test` prints that it aborts for repeat counts below one and goes on
  (`projects/flash_multinode/main.cpp:311-313`): without test repeats nothing follows, without read
  repeats only the last reads of each round are missing.
- The expected words of a page come from its address with the block number shifted by 16 and the chip
  number by 20 (`projects/flash_multinode/flash.cpp:195-198`), where a chip has 1024 blocks.  So they do not
  tell a block from one of the next chip with a number lower by 16, and a page returned from there passes
  the check (`GoldenTells`); below block 16 they tell everything (`GoldenTellsLowBlocks`).
- `writePage` of the flash interface refuses buffer indices above 64 where there are
  64 buffers, so it lets 64 and every negative index through
  (`projects/test/flashinterface.cpp:54`); `SpendForWrite` says so.

## Model

| member | source | states |
|---|---|---|
| `BurstPath.WordsLandInOrder` | flashemul/Interface.bsv:133-230 | in every run, for every tag, of the words brought by the calls of writeWord that may come when they do, those that have left the buffer were written in order, the `w`-th to byte 8192 t + 8 (w mod 1024), and the rest are in the buffer |
| `BurstPath.AcceptedIsOffered` | flashemul/Interface.bsv:219-230 | what is accepted of a tag is exactly the data of those calls, in order |
| `BurstPath.BurstsStayInPage` | flashemul/Interface.bsv:139-156 | every burst lies in the page of its tag and starts where the tag's earlier bursts end; the offset register and the number of pageReadDone follow from the bursts started |
| `BurstPath.BuffersAccountedFor` | flashemul/Interface.bsv:131-164 | a buffer holds the partial burst, 16 words a queued token and what is left in flush, so the flush never waits on an empty buffer |
| `BurstPath.FlushLowersMeasure` | flashemul/Interface.bsv:139-164 | every flush step lowers 17 tokens + counter |
| `BurstPath.NeverWedged` | flashemul/Interface.bsv:133-164 | with a producer held up by a full buffer or token queue, and whatever number of commands the engine can queue, a burst may start with room for its command, or a word may be fed, or the engine has both a word and a command |
| `BurstPath.Drains` | flashemul/Interface.bsv:139-164 | from any reachable state the flush and engine steps already due, no more and no fewer than the work left, empty everything but the partial bursts |
| `BurstMemory.MemoryHolds` | flashemul/Interface.bsv:145-149 | a written word stays in its place in host memory until 1024 more words of its tag have been written, whatever other tags do |
| `BurstMemory.HeldIff` | flashemul/Interface.bsv:145-149 | what a place in memory holds is a given word if and only if that word has been written and fewer than 1024 of its tag's after it |
| `BurstMemory.PageWhole` | flashemul/Interface.bsv:145-154 | the page buffer of a tag holds its p-th page, word for word, if and only if exactly the words up to that page's end have been written |
| `BurstMemory.AnnouncedTooEarly` | flashemul/Interface.bsv:149-153 | every time pageReadDone is raised, at least the page's last burst is missing from memory |
| `BurstMemory.AnnouncedInMemoryIff` | flashemul/Interface.bsv:149-164 | until its tag's next burst starts, an announced page is in memory if and only if none of its words is in flush or in the engine's FIFO |
| `BurstPath.RunKeepsInv` | flashemul/Interface.bsv:131-164 | every rule and method keeps the invariant of the write path, from any state that has it |
| `BurstDevice.WritePath.constructor` | flashemul/Interface.bsv:131-138 | the registers at reset |
| `BurstDevice.WritePath.StartWriteFlush` | flashemul/Interface.bsv:139-156 | fires exactly when enabled, starts the burst the transition system starts, and raises pageReadDone exactly when that does |
| `BurstDevice.WritePath.DriveWriteFlush` | flashemul/Interface.bsv:157-164 | fires exactly with a burst in flush, a word in its tag's buffer and one of 128 FIFO places free, and moves that buffer's oldest word to the FIFO |
| `BurstDevice.WritePath.EngineTake` | flashemul/Interface.bsv:101-104 | the engine's side of the FIFO |
| `BurstDevice.WritePath.WriteWord` | flashemul/Interface.bsv:219-230 | accepts a word exactly when its buffer has fewer than 24 and, if it completes a burst, fewer than 8 tokens wait; puts that word behind those of its tag, with a token on every sixteenth |
| `BurstDevice.WritePath.Perform` | flashemul/Interface.bsv:139-230 | any schedule of rules and calls is a run of the transition system |
| `PagePath.OneRequestPerBusyTag` | flashemul/main.cpp:61-133 | in every run a busy tag has exactly one request between issue and completion and an idle tag none; nothing unrequested arrives, nothing fails, and issued = counted + handled but not yet counted + busy |
| `PagePath.ReadDoneOncePerPage` | flashemul/Interface.bsv:150-154 | pageReadDone once for every 64 bursts of a tag, never more than the pages asked for |
| `PagePath.PagesWrittenInOrder` | flashemul/Interface.bsv:231-252 | the k-th word returned carries the tag of page k div 1024 and is word k mod 1024 of that tag's page buffer; pageWriteDone is raised once a page, in request order, on its last word |
| `PageOrders.CommandsInOrder` | flashemul/Interface.bsv:182-239 | in every run what the host has asked for is, in order, what the platform has taken, what is queued and what is on its way, with kind, page and tag; the tags of its writes are those asked of the read engine and those to come, and each tag's reads are its pages granted and to come |
| `PageOrders.TotalsByKind` | flashemul/main.cpp:103-133 | in every run the pages written are counted as such or announced, and the pages read counted as such, handled or announced |
| `PagePath.QueuesNeverBlock` | flashemul/Interface.bsv:174-191 | commands and page tags never outnumber the busy tags, so neither FIFO ever holds up its producer |
| `PagePath.FlushedMeansComplete` | flashemul/main.cpp:118-166 | when the scan of waitTagFlush finds no busy tag, every request has completed, nothing is on its way, and each page has gone into bursts; the totals equal the requests issued if and only if no handler has still to count its page |
| `PageOrders.FlushedAsAsked` | flashemul/main.cpp:143-166 | when the scan of waitTagFlush finds no busy tag, everything asked for has been taken as what it is; the pages written are the tags of the host's writes in order and pageWriteTotal their number, and the other requests are the reads |
| `PageOrders.BurstRuns` | flashemul/Interface.bsv:139-164 | the write path of the joined system goes through a run of its own, of the write-path steps among the actions |
| `PageFlush.IdleTagInMemoryIff` | flashemul/main.cpp:118-133 | a tag that is free again has its last page in its buffer if and only if none of the page's words is in flush or in the engine's FIFO |
| `PageFlush.FlushedInMemoryIff` | flashemul/main.cpp:143-166 | when waitTagFlush returns, every tag's last page is in its buffer if and only if the engine has finished all its commands |
| `PageFlush.FlushReturnsEarly` | flashemul/main.cpp:143-166 | there is a run in which waitTagFlush returns with sixteen words of the only page not written and the page not counted |
| `PageFlush.FlushedPagesArrive` | flashemul/main.cpp:143-166 | the steps then still due, which need no new words, leave every page buffer holding the last page delivered for its tag |
| `PageFlush.Completes` | flashemul/main.cpp:61-166 | from any reachable state, without another call by the host, actions exist after which no tag is busy, every request is counted and every page is in memory |
| `PageOrders.CompletesAsAsked` | flashemul/main.cpp:61-166 | after any run from boot such actions lead to a state with every request completed as the kind it was, every page counted for its kind, and every page in memory |
| `PagePath.HistoryKeepsInv` | flashemul/Interface.bsv:174-252 | every step of host, interface and platform keeps the joint invariant |
| `PageDevice.TagPool.ReadPage` | flashemul/main.cpp:78-93 | one scan takes the lowest idle tag, or none if all are busy |
| `PageDevice.TagPool.WritePage` | flashemul/main.cpp:61-76 | the same scan over the one write tag |
| `PageDevice.TagPool.PageReadDone` | flashemul/main.cpp:118-125 | the lock section: frees the tag, and complains exactly about a page not requested |
| `PageDevice.TagPool.CountRead` | flashemul/main.cpp:127 | counts the page, after the lock has been released |
| `PageDevice.TagPool.PageWriteDone` | flashemul/main.cpp:103-110 | frees the tag and counts the page |
| `PageDevice.TagPool.TagsFlushed` | flashemul/main.cpp:143-153 | one scan of waitTagFlush: true exactly when no tag is busy |
| `PageDevice.PageQueues.Request` | flashemul/Interface.bsv:182-191 | queues a command, waits on a full FIFO, and turns down a write with a tag outside the pool |
| `PageDevice.PageQueues.ServeCommand` | flashemul/Interface.bsv:212-239 | takes the oldest command, and for a write, given room, queues its tag for the read engine, as the platform's rule calls getCommand and readPage |
| `PageDevice.PageQueues.ReadWord` | flashemul/Interface.bsv:240-252 | the word's tag, the word count, and pageWriteDone on the page's last word |
| `MorrisPrattTables.ComputeBorders` | projects/flash_strstr_raw/mp.h:63-72 | every entry is the length of the longest proper border of its prefix; nothing else is written; the inner loop runs at most m times in all |
| `MorrisPrattTables.ComputeMpNext` | projects/flash_strstr_raw/mp.h:74-84 | entry i is one more than the longest border of the first i - 1 characters, by a different loop; nothing else is written; at most m inner iterations in all |
| `MorrisPrattTables.BuildersAgree` | projects/flash_strstr_raw/mp.h:63-84 | the two tables of one pattern are the same function, shifted |
| `MorrisPrattSearch.MP` | projects/flash_strstr_raw/mp.h:86-106 | for any table with descending links the reports are those of the automaton; for a table right for a non-empty pattern they are the greedy occurrences; the counter rises by their number; at most n inner iterations |
| `MorrisPrattSearch.SearchIsGreedy` | projects/flash_strstr_raw/mp.h:86-106 | with a table right for its pattern, the positions reported are the leftmost non-overlapping occurrences and no others |
| `MorrisPrattSearch.GreedyIsLargest` | projects/flash_strstr_raw/mp.h:99-103 | no set of non-overlapping occurrences is larger than the count |
| `MorrisPrattSearch.GreedyUnique` | projects/flash_strstr_raw/mp.h:99-103 | there is only one greedy choice, so the reports are determined |
| `MorrisPrattSearch.EmptyPattern` | projects/flash_strstr_raw/mp.h:99-103 | the empty pattern is reported after every character, which is not the greedy choice |
| `MorrisPrattPairing.RightIffSameFalls` | projects/flash_strstr_raw/test.cpp:119-122 | a table of whatever origin is right on all texts if and only if it falls, on the pattern's characters, as the pattern's own table does |
| `MorrisPrattPairing.PairingMisses` | projects/flash_strstr_raw/test.cpp:122 | with the table built from "aab" as the driver builds it, the searcher misses the occurrence in "aaab" |
| `MorrisPrattPairing.ShippedNeedleIsRight` | projects/flash_strstr_raw/test.cpp:110-122 | for the needle the driver ships the table built is right on all texts, whatever byte follows the needle |
| `MatchEngine.EngineReports` | projects/flash_strstr_raw/MPEngineBDBM.bsv:147-216 | however fetches and comparisons interleave, an engine that has come to its end has reported what the searcher of mp.h reports without the last character, and then -1 |
| `MatchEngine.EngineIsGreedy` | projects/flash_strstr_raw/MPEngineBDBM.bsv:160-216 | with a table right for the needle these are the leftmost non-overlapping occurrences in the haystack without its last character |
| `MatchEngine.RunKeepsInv` | projects/flash_strstr_raw/MPEngineBDBM.bsv:147-216 | every step keeps outdated fetches in front, of the last epoch only, and the fetch that counts where the searcher of mp.h is |
| `MatchResults.EngineRightIff` | projects/flash_strstr_raw/MPEngineBDBM.bsv:174-184 | the reports are the greedy occurrences in the haystack if and only if none of these ends at the last character |
| `MatchResults.WholeHaystackMissed` | projects/flash_strstr_raw/MPEngineBDBM.bsv:174-184 | of a haystack that is the needle the engine reports nothing |
| `MatchResults.EngineRightIffSameFalls` | projects/flash_strstr_raw/test.cpp:122-173 | a table makes the engine find what it can of every haystack if and only if it falls as the needle's own |
| `MatchResults.ShippedNeedleFound` | projects/flash_strstr_raw/test.cpp:110-173 | the table the driver builds for the needle it ships does, whatever byte follows the needle |
| `MatchResults.PairingMissedByEngine` | projects/flash_strstr_raw/test.cpp:122-173 | with the table built for "aab" as the driver builds it, the engine reports nothing of "aaab" and one more character |
| `MatchResults.Finishes` | projects/flash_strstr_raw/MPEngineBDBM.bsv:147-216 | from any reachable state an engine with a needle can come to its end |
| `MatchResults.EmptyNeedleNeverEnds` | projects/flash_strstr_raw/MPEngineBDBM.bsv:180-184 | without one it never does, and reads nothing |
| `MatchResults.PartSearched` | projects/flash_strstr_raw/StrstrBDBM.bsv:159-178 | what the searcher finds of an engine's part starts in that part, and covers each occurrence that does, for the last engine each that ends before the last character |
| `MatchResults.PartReports` | projects/flash_strstr_raw/StrstrBDBM.bsv:167-174 | the list of reports of an engine of the split that has ended is positions of occurrences in the whole haystack, inside the engine's part, in order and apart, then -1; each occurrence that starts in the part, for the last engine each that ends before the last character, is in the list or overlapped from the left by one that is |
| `MatchResults.SplitSearchCovers` | projects/flash_strstr_raw/StrstrBDBM.bsv:159-178 | of every occurrence in the haystack that ends before its last character, the list of the engine in whose part it starts has the position, or that of one that overlaps it from the left, however the engine came to its end |
| `MatchDevice.Searcher.constructor` | projects/flash_strstr_raw/MPEngineBDBM.bsv:323-331 | the registers as the search starts |
| `MatchDevice.Searcher.MatchNeedleReq` | projects/flash_strstr_raw/MPEngineBDBM.bsv:147-153 | fetches for the present place and goes back to the start of the needle |
| `MatchDevice.Searcher.MatchNeedleResp` | projects/flash_strstr_raw/MPEngineBDBM.bsv:160-216 | drops an outdated fetch, or compares |
| `MatchDevice.Searcher.Compare` | projects/flash_strstr_raw/MPEngineBDBM.bsv:167-210 | end, report, link, restart or match, in that order, with epoch, offset and haystack |
| `FlashHost.GoldenFits` | projects/flash_multinode/flash.cpp:195-198 | the expected word of every address stays inside a 32-bit int |
| `FlashHost.FirstIdle` | projects/flash_multinode/flash.cpp:252-303 | the scan finds the lowest idle tag, or that there is none |
| `FlashCluster.BarrierHolds` | projects/flash_multinode/main.cpp:67-69 | at a busy-wait, a counter of zero means that nothing of the phase is in flight |
| `FlashCluster.FinishBooked` | projects/flash_multinode/flash.cpp:57-68 | a completion finds its counter positive and its tag busy, and leaves the accounts right |
| `FlashVerdict.CheckPasses` | projects/flash_multinode/flash.cpp:201-242 | the data check of a page returned by a well-behaved fabric passes |
| `FlashRuns.RunBooked` | projects/flash_multinode/flash.cpp:49-110 | whatever the fabric answers, each counter is the requests issued and not completed, a tag is busy exactly when held or in flight, no error branch is taken, and a failed verdict stays failed |
| `FlashClient.RunBooked` | projects/flash_multinode/flash.cpp:252-348 | for any clients mixing erases, writes and reads, each counter is the requests of its kind issued and not completed, the busy tags of a kind are the disjoint union of those held and those in flight, and no error branch is taken |
| `FlashClient.StartBooked` | projects/flash_multinode/flash.cpp:161-168 | that holds of a host with idle tags and zero counters |
| `FlashClient.OthersUndisturbed` | projects/flash_multinode/flash.cpp:308-348 | no client's step changes the address or the buffer of a request in flight |
| `FlashDiscipline.DisciplinedPasses` | projects/flash_multinode/flash.cpp:201-242 | a client whose requests on one block do not overlap but for reads, which writes to erased blocks only and reads none it has never erased, and whose blocks nobody else touches, never has a check fail, and each of its blocks at rest is as recorded |
| `FlashDiscipline.CheckPasses` | projects/flash_multinode/flash.cpp:201-242 | the data check of a page read by such a client passes |
| `FlashTestsAreClients.StepIsClientStep` | projects/flash_multinode/main.cpp:325-416 | every step of a host running a test is a step of a client, or none |
| `FlashRuns.WrongWordFailsTest` | projects/flash_multinode/flash.cpp:205-214 | a wrong valid word read from a block recorded as WRITTEN fails the test for good |
| `FlashChecks.CheckDecides` | projects/flash_multinode/flash.cpp:49-56 | after a data check the verdict is pass if and only if it was and, when checking, the page is right for the status of the block the request was issued for: all 2056 valid words expected ones for WRITTEN, zero or all ones in front for ERASED, anything for BAD, nothing otherwise |
| `FlashChecks.WrongStateFailsTest` | projects/flash_multinode/flash.cpp:219-239 | a page read from a block recorded as ERASED that starts otherwise, or from a block of which nothing is recorded, fails the test for good |
| `FlashChecks.VerdictIsExact` | projects/flash_multinode/flash.cpp:49-69 | on any fabric, a host that has finished its test has passed it if and only if no read to be checked was answered with a page wrong in that sense |
| `FlashChecks.UncheckedTouchesNothing` | projects/flash_multinode/main.cpp:366-371 | without checking, no run changes the verdict or fills a write buffer |
| `FlashChecks.GoldenTellsLowBlocks` | projects/flash_multinode/flash.cpp:195-198 | the expected words tell all blocks below 16, and their words, apart |
| `FlashChecks.GoldenTells` | projects/flash_multinode/flash.cpp:195-198 | a page written for one block passes as another's if and only if their block numbers differ by 16 for every chip the two are apart |
| `FlashScripts.FollowsScript` | projects/flash_multinode/main.cpp:325-416 | in every run, whatever the fabric answers, the requests a host has issued are a beginning of its script (erase all, read all, write all, read all over and over, and that over and over), and the whole of it when it has finished |
| `FlashScripts.ManyToManyOrders` | projects/flash_multinode/main.cpp:307-416 | the loops of many_to_many_test ask for exactly that script over the host's own blocks, and for nothing above ten repeats |
| `FlashScripts.RoundOrders` | projects/flash_multinode/main.cpp:59-128 | a round asks for one erase, one read, one write and then the given number of reads of every block |
| `FlashRuns.NeverStuck` | projects/flash_multinode/main.cpp:325-416 | a host that has not finished can take a step or has a request in flight, and every such request has a step to come |
| `FlashProgress.CanFinish` | projects/flash_multinode/main.cpp:325-416 | from any state the tests may have reached there are steps, on a fabric that behaves, after which every host has finished |
| `FlashProgress.CanFinishPassing` | projects/flash_multinode/main.cpp:427-433 | the tests of hosts with their own blocks can be run to the end, and pass |
| `FlashRuns.InFlightUndisturbed` | projects/flash_multinode/flash.cpp:308-348 | no step but the fabric's own changes the table entry or buffers of a request in flight |
| `FlashRuns.BadUntilErased` | projects/flash_multinode/flash.cpp:315-330 | a BAD block stays BAD until an erase of it is issued |
| `FlashRuns.RunAgrees` | projects/flash_multinode/flash.cpp:201-242 | on a well-behaved fabric every step of every host keeps each host's statuses in agreement with its own blocks |
| `FlashRuns.TestsPass` | projects/flash_multinode/main.cpp:325-416 | hosts with their own blocks pass throughout, from any state of boards and status tables, and a finished round leaves each block BAD or WRITTEN with its data |
| `FlashSharing.SharedBlockFails` | projects/flash_multinode/main.cpp:302-305 | two checking hosts that share a block have a run, with fabric and hosts behaving, in which the test of one fails |
| `FlashSharing.PassIffOwnBlocks` | projects/flash_multinode/main.cpp:302-416 | checking hosts pass in every run if and only if no two share a block |
| `FlashPlans.IssueOrder` | projects/flash_multinode/main.cpp:327-335 | the nested loops issue exactly the strided list of blocks, in order |
| `FlashPlans.LocalOrder` | projects/flash_multinode/main.cpp:59-65 | the nested loops of the local test issue exactly the blocks of the host's node, in order |
| `FlashPlans.StridePlanOk` | projects/flash_multinode/main.cpp:327-335 | the strided list is on the boards and has no block twice |
| `FlashPlans.LocalPlanOk` | projects/flash_multinode/main.cpp:59-65 | neither has the local one |
| `FlashPlans.StrideMembers` | projects/flash_multinode/main.cpp:327-335 | a block is in a host's list if and only if its number is the host's id modulo the number of nodes, so the lists are disjoint and cover all |
| `FlashPlans.DistinctIdsOwnBlocks` | projects/flash_multinode/main.cpp:304-335 | hosts with different ids share no block |
| `FlashPlans.ManyToManyPasses` | projects/flash_multinode/main.cpp:307-437 | many_to_many_test by any hosts with different ids passes under every interleaving on a well-behaved fabric |
| `FlashPlans.SingleHostPasses` | projects/flash_multinode/main.cpp:48-160 | so does one host alone, on its own node or over all of them |
| `FlashDevice.Globals.constructor` | projects/flash_multinode/flash.cpp:161-186 | the globals after initialisation can start any test |
| `FlashDevice.Globals.IdleTag` | projects/flash_multinode/flash.cpp:252-303 | one scan takes the lowest idle tag of its table, or changes nothing |
| `FlashDevice.Globals.EraseBlock` | projects/flash_multinode/flash.cpp:308-320 | lock section of an erase request |
| `FlashDevice.Globals.WritePage` | projects/flash_multinode/flash.cpp:324-335 | lock section of a write request, which leaves a BAD block BAD |
| `FlashDevice.Globals.ReadPage` | projects/flash_multinode/flash.cpp:337-348 | lock section of a read request |
| `FlashDevice.Globals.CheckReadData` | projects/flash_multinode/flash.cpp:201-242 | passes exactly a page that is right for the recorded status of its block, as spelled out in `RightPage` |
| `FlashDevice.Globals.ReadDoneCheck` | projects/flash_multinode/flash.cpp:49-56 | the unlocked check lowers the verdict exactly on failure, and only when checking |
| `FlashDevice.Globals.ReadDone` | projects/flash_multinode/flash.cpp:57-68 | lock section of a read completion with its two error branches |
| `FlashDevice.Globals.WriteDone` | projects/flash_multinode/flash.cpp:71-86 | the same for a write |
| `FlashDevice.Globals.EraseDone` | projects/flash_multinode/flash.cpp:88-110 | the same for an erase, recording a BAD block |
| `I2CRoundTrip.RequestsHeardAsAsked` | flashemul/I2CSimple.bsv:136-222 | in every run of any mix of requests, a listener decodes exactly the requests made with room in the queue, in order, and the data bytes it heard in the reads are, in order, the responses collected and those waiting, whatever the shift register held before |
| `I2CRoundTrip.SubmittedIsAsked` | flashemul/I2CSimple.bsv:215-217 | the requests accepted are exactly those made with room in the queue, as made and in order |
| `I2CRoundTrip.AnsweredIsCollected` | flashemul/I2CSimple.bsv:219-222 | the responses ever given are those collected, in order, and those still in the FIFO |
| `I2CRoundTrip.QueuesFit` | flashemul/I2CSimple.bsv:199-217 | neither FIFO ever holds more than 16: a read whose response has nowhere to go waits |
| `I2CProgress.HeardAfterItsTicks` | flashemul/I2CSimple.bsv:176-205 | with a slave that obeys and room for a response, a request under way has been heard as asked after one tick for each of its phases left |
| `I2CProgress.NextHeard` | flashemul/I2CSimple.bsv:166-205 | an idle master has heard its next request when it has started it and as many ticks have come as the request has phases |
| `I2CProgress.AllHeard` | flashemul/I2CSimple.bsv:166-205 | from any reachable state there are ticks and collected responses after which every request accepted has been heard, as asked and in order |
| `I2CProgress.AskedIsHeard` | flashemul/I2CSimple.bsv:166-222 | after any run from reset ticks and collected responses can follow after which the transactions heard are the requests made with room, one for one |
| `I2CRoundTrip.DataStableWhileHigh` | flashemul/I2CSimple.bsv:136-150 | in every run, while SCL stays high the data line moves only in START, repeated START and STOP columns |
| `I2CRoundTrip.PhaseOf` | flashemul/I2CSimple.bsv:136-150 | what the packed tables play at each phase of each column |
| `I2CRoundTrip.WriteStops` | flashemul/I2CSimple.bsv:147-150 | the bits of a played write decode to its slave, address and data |
| `I2CRoundTrip.ReadStops` | flashemul/I2CSimple.bsv:138-141 | those of a read decode to its slave and address, and the data bits to the shift register |
| `I2CRoundTrip.RunKeepsInv` | flashemul/I2CSimple.bsv:166-205 | every rule and user method keeps master, bus and listener in step |
| `I2CDevice.Controller.Request` | flashemul/I2CSimple.bsv:215-217 | queues a request unless 16 are waiting |
| `I2CDevice.Controller.Response` | flashemul/I2CSimple.bsv:219-222 | hands out the oldest response |
| `I2CDevice.Controller.Start` | flashemul/I2CSimple.bsv:166-174 | loads the oldest request and its play length |
| `I2CDevice.Controller.RunningWrite` | flashemul/I2CSimple.bsv:176-181 | plays a phase of a write |
| `I2CDevice.Controller.RunningRead` | flashemul/I2CSimple.bsv:183-189 | plays a phase of a read, with its sample |
| `I2CDevice.Controller.DoneWrite` | flashemul/I2CSimple.bsv:191-197 | plays the last phase and goes idle, the counter wrapping |
| `I2CDevice.Controller.DoneRead` | flashemul/I2CSimple.bsv:199-205 | plays the last phase and answers the shift register |
| `I2CDevice.Controller.Tick` | flashemul/I2CSimple.bsv:154-205 | at a tick exactly the rule that may fire does |
| `AuroraLinks.WordsArriveInOrder` | xilinx/aurora_64b66b/bdpi.cpp:97-145 | in every run of a chain of any length, the words bdpiRead has returned at a port are a prefix of those bdpiWrite took at its peer; the rest are in its mailbox and the pipe |
| `AuroraLinks.WriteTakenIff` | xilinx/aurora_64b66b/bdpi.cpp:66-145 | a word is taken if and only if the pipe has room and the peer has opened its end before |
| `AuroraLinks.RunTakes` | xilinx/aurora_64b66b/bdpi.cpp:127-145 | what the ports have sent and given is what the calls were made with and returned |
| `AuroraLinks.AvailabilityIsExact` | xilinx/aurora_64b66b/bdpi.cpp:98-118 | a word is announced exactly when one was sent and not yet given, and the read that may follow returns that word |
| `AuroraLinks.AnnouncedExactly` | xilinx/aurora_64b66b/bdpi.cpp:98-134 | the same in every run, in terms of the words taken and returned by the calls |
| `AuroraLinks.ReadKeepsLinkIffHeld` | xilinx/aurora_64b66b/bdpi.cpp:127-134 | a read keeps the link's account if and only if a word had been announced |
| `AuroraLinks.NamesPair` | xilinx/aurora_64b66b/bdpi.cpp:34-64 | the pipe names join each port with one peer: 0 with 3, 1 with 2, both ways, and no other |
| `AuroraLinks.RunKeepsInv` | xilinx/aurora_64b66b/bdpi.cpp:20-145 | every proper call keeps the account of every link |
| `AuroraProcess.Process.constructor` | xilinx/aurora_64b66b/bdpi.cpp:16-19 | the globals at start |
| `AuroraProcess.Process.OpenPipes` | xilinx/aurora_64b66b/bdpi.cpp:20-95 | opens what can be opened, emptying the mailbox with the reading end, and refuses nodes above 20 |
| `AuroraProcess.Process.BdpiRecvAvailable` | xilinx/aurora_64b66b/bdpi.cpp:98-118 | fetches a word only into an empty mailbox |
| `AuroraProcess.Process.BdpiRead` | xilinx/aurora_64b66b/bdpi.cpp:127-134 | empties the mailbox |
| `AuroraProcess.Process.BdpiWrite` | xilinx/aurora_64b66b/bdpi.cpp:136-145 | sends the word whole or not at all, and says which |
| `FlashStore.PagesApart` | projects/test/storagebridge.cpp:51-61 | the pages of all addresses are disjoint, whole, inside the allocation and inside int |
| `FlashStore.PagesFill` | projects/test/storagebridge.cpp:18-21 | every byte of an allocation belongs to a page |
| `FlashStore.PagesInOrder` | projects/test/storagebridge.cpp:51-61 | the pages of a channel lie in the order of chips, then blocks, then pages |
| `FlashStore.Bridge.constructor` | projects/test/storagebridge.cpp:28-48 | what the allocations hold is the initial content |
| `FlashStore.Bridge.WritePage` | projects/test/storagebridge.cpp:57-61 | the addressed page becomes the buffer and no other page changes |
| `FlashStore.Bridge.ReadPage` | projects/test/storagebridge.cpp:73-79 | the buffer becomes what was last written to the address, or the initial content, and no other buffer changes |
| `FlashInterface.LayOut` | projects/test/flashinterface.cpp:195-214 | the loops give every buffer 16 KB of its channel's own allocation, the j-th of the channel at 16 KB times j, whole and disjoint from every other |
| `FlashInterface.OneOwner` | projects/test/flashinterface.cpp:82-84 | the channels' ranges partition the buffers |
| `FlashInterface.Interface.ReqFlashCmd` | projects/test/flashinterface.h:114-121 | credits granted are added to the budget |
| `FlashInterface.Interface.SpendForWrite` | projects/test/flashinterface.cpp:53-66 | a command is accepted exactly when a granted credit is unspent, and spends one; only indices above the buffer count are ignored |
| `FlashInterface.Interface.SpendForRead` | projects/test/flashinterface.cpp:147-155 | the same for a read, without the index test |
| `FlashInterface.Interface.SendWrite` | projects/test/flashinterface.cpp:69-74 | counts the write, of a caller that has spent a credit for it; the books stay right if the caller holds the buffer and has not sent it |
| `FlashInterface.Interface.SendRead` | projects/test/flashinterface.cpp:159-164 | the same for a read |
| `FlashInterface.Interface.WriteDone` | projects/test/flashinterface.h:59-70 | the lock section: frees exactly that buffer and complains exactly of an unused one, never for a write that was at the device |
| `FlashInterface.Interface.AfterWriteDone` | projects/test/flashinterface.h:72-75 | the test after the lock: resets a counter below zero, and finds none while the books are right |
| `FlashInterface.Interface.ReadDone` | projects/test/flashinterface.h:82-97 | the lock section of a read's completion |
| `FlashInterface.Interface.AfterReadDone` | projects/test/flashinterface.h:99-102 | the test after it |
| `FlashInterface.Interface.Do` | projects/test/flashinterface.cpp:53-166 | any call keeps the credits balanced, and the books of buffers and counters if it keeps to the rules |
| `FlashInterface.Interface.Perform` | projects/test/flashinterface.cpp:53-166 | over any schedule no more commands are sent than credits were spent and no more spent than the device gave; if all calls keep to the rules the other books stay right too |
| `FlashInterface.Interface.GetIdleWriteBuffer` | projects/test/flashinterface.cpp:78-94 | hands out the lowest free buffer of the channel's range, or none when all are held, and touches no other |
| `FlashInterface.Interface.GetIdleReadBuffer` | projects/test/flashinterface.cpp:111-123 | the same over all read buffers |

## Left out

- Set-up of portals, DMA, the MMU and caches, logging, sleeping and timing: calls
  into code that is not here.
- `flash_connectal`, `flash_connectal_64bit`, `flash_connectal_tagbufs`, `flash_xbsv`
  and `simple/Interface.bsv`: near copies of what is modelled.
- `RawWordManager` (its writer is commented out), the Aurora routing tables (constants)
  and the transport layer described in `papers/fpl2015` (its source is not here).
- Liveness of condition-variable waits: `waitIdleWriteBuffer` of the flash interface checks
  and waits in separate lock sections, so a wakeup can be missed; the waits are steps that may
  be tried again, and no claim is made that they end.
- BurstDevice.WritePath.WriteWord: tags of 64 and more, for which the source says nothing, are
  never accepted.  Its implicit condition is the weakest one, that of
  the FIFOs it really uses; a stricter schedule has fewer runs, and `NeverWedged` covers a
  full token queue whether or not the word would fill a burst.
- PageDevice.PageQueues.Request: read requests whose tag is outside the pool, which the interface
  truncates; `OneRequestPerBusyTag` shows that the host sends none.
- PageDevice.TagPool.CountRead: `readTagCount` and `maxTagUsed`, statistics.
- The handler of `pageWriteFail`: the indication is never raised in any run, as
  `OneRequestPerBusyTag` says.
- MatchEngine.EngineReports: the set-up and drain rules, the memories' latency and the path of the
  haystack through pages and tags (`TagBuffers.bsv`), the widths of its counters.
- MatchResults.SplitSearchCovers: reports of different engines may overlap across the border of
  two parts, so together they need not be the greedy choice of the whole haystack.
- FlashDiscipline.DisciplinedPasses starts from an empty status table; what stale statuses do is the subject of
  `TestsPass`, whose tests erase first.
- MorrisPrattSearch.MP: the printing of the pattern with each report, and tables with a link that does
  not lead down, with which the loop need not end.
- FlashCluster.Advance: filling a write buffer is one step, not one a word; the buffer belongs to
  the thread that fills it.
- FlashProgress.CanFinish: states in which the boards hold programmed pages of another length than a page.
- PageFlush.Completes and `CanFinish` say that the end can be reached, not that every schedule reaches it;
  no fairness is assumed of the scheduler.
- AuroraProcess.Process.OpenPipes: ports without a peer (4 to 7, and 2 and 3 of the first node), for which
  the source opens a pipe whose name it has not set.
- AuroraProcess.Process.BdpiRecvAvailable: the same ports.
- AuroraProcess.Process.BdpiRead: the same ports.
- AuroraProcess.Process.BdpiWrite: the same ports.
- `bdpiSendAvailable`, which answers true whenever the pipes may be opened.
- FlashStore.Bridge.constructor: the pattern put into the bridge buffers at start.
- FlashStore.Bridge.WritePage: addresses outside the emulated boards, for which the source copies
  outside its allocation; the same goes for `ReadPage`.
- FlashInterface.Interface.WriteDone: indices outside the buffer table, for which the source writes outside it;
  the same goes for `ReadDone`.
