# NetSurf cores, modelled and proved

This project models six parts of the NetSurf web browser in Dafny and proves what they are
for: the free-text wildcard matcher, the index of the URL database, the file backing store of
the cache, the low-level cache, the fetch scheduler, and the layout of the local history.

Each part has the same build. A module of functions says what one operation does to a state;
lemmas prove what every operation, and so every run, keeps; and where the source updates
things in place, classes and methods with loops are proved to leave exactly the state that
those functions compute. `dafny verify dfyconfig.toml` checks everything.

| part | modules |
|---|---|
| wildcard matcher | `TextSearch`, `TextMeaning`, `TextMatcher`, `TextSearchResults`, `TextSearchLimit` |
| URL database | `Strings`, `HostOrder`, `SearchTree`, `SearchNodes`, `HostIndex`, `PathTree`, `PathMisses`, `PathNodes`, `PathWalk`, `LinkedTree`, `LinkedWalk`, `LinkedAdd`, `LinkedPaths` |
| backing store | `UseMap`, `StoreModel`, `StoreInvariant`, `StoreRuns`, `StoreRefs`, `StoreInvalidation`, `StoreEviction`, `StoreLimits`, `BackingStore` |
| low-level cache | `FetchStates`, `Delivery`, `DeliveryReplay`, `DeliveryFairness`, `DeliveryNotify`, `Headers`, `Metadata`, `MetadataReader`, `MetadataFailure`, `CacheState`, `CacheLifetime`, `CacheSurplus`, `CacheLeaks`, `CacheService`, `FetchPointer`, `CacheWork`, `CacheBounds`, `CacheLists`, `CacheLimits`, `CacheRetrieval`, `CacheCleaning`, `CacheMessages`, `ObjectLists`, `ObjectCache`, `ObjectClean` |
| fetch scheduler | `FetchScheduler`, `FetchOrder` |
| local history | `HistoryLayout`, `HistoryShape`, `HistoryNodes` |

`Options` holds the optional value that they share.

## Main results

- **Matcher.** Whatever it reports is a real match; with at most 15 interior star groups it
  reports the leftmost start, and nothing exactly if there is no match. That bound is exact: for
  every number of groups from 16 on some match is missed (`ContextLimitExact`). It always
  terminates, also when contexts are dropped.
- **URL index.** After any additions a lookup finds a name exactly if it was added, up to case,
  although insertion and lookup use different comparators and pick the tree differently. An
  address is found exactly if it was added when it was the last label of no name before it. The
  AA tree stays balanced and no deeper than 2·log2(n + 1). An added path is matched to its own
  leaf in every later state, although only prefixes are compared; a path never added is answered
  exactly if its lookup overshoots at some level (`PathMisses.LookupReflectsRun`). On linked
  nodes, with no stack, additions keep the whole tree linked and the walks write every leaf
  once; written paths read back to the same leaf.
- **Backing store.** What was stored is what is fetched, from the heap, a block or a file, after
  any run that neither removes nor re-stores it. Held blocks are marked, held once and never the
  sentinel; sizes add up; references are counted. Eviction takes the entries used least, by count
  and then by time, until more than the hysteresis is given back (`LeastUsedGo`,
  `EvictMakesRoom`). From its invalidation to its next store a URL is in the table exactly as
  long as a reference is held (`InvalidatedIsGone`). Data that outgrows its block is where this
  stops: `OversizeSparesIff` gives the exact condition and `NeighbourOverwritten` a run.
- **Cache delivery.** Whatever clients answer, each has taken exactly the data that its handle
  says, headers first and once, the end only with all the data. A pass serves the users in turn up
  to the first error or failed departure, so nobody starves beside a client that asks for replay
  (`PassServes`, `NobodyStarves`).
- **Cache retrieval and cleaning.** Which object a request gets, in every case: a fresh hit is
  shared by however many clients without a fetch (`HitsShare`), a stale one validated, a lost one
  replaced, a miss fetched. `CleanExact` says what cleaning takes and what it leaves.
- **Cache lifetime and work.** No object is destroyed while it has users, a fetch, or objects
  that validate against it; `PersistExact` gives the exact condition on writing to the store,
  and `EmptyBodyDestroyed` a run that breaks it. A candidate's count exceeds the objects that
  point at it by exactly the number of objects that were destroyed with it still set, and so
  never by less than before. Fetches and redirects are bounded, and the bounds are met
  (`FetchBoundMet`, `RedirectBoundMet`). Every client's object is being fetched or complete,
  exactly as long as each fetch with credentials or downgraded starts: one that does not leaves
  the object in neither state, and nobody is told (`StepAlive`). A retry after a timeout that
  does not start completes the object, but aborts a fetch that has ended (`EndedAborted`).
- **Metadata.** Printing and parsing undo each other exactly if the URL has at least seven
  characters and the headers are proper, which those of every response with flush lines are;
  the buffer suffices exactly if the five numbers have at most 59 digits between them.
- **Scheduler.** Each fetch is in one ring, the one its flag tells; limits are never exceeded;
  dispatch stops only for a reason, so skipping runs of one host loses nothing; and the queue is
  served in the order of arrival or last failed start.
- **History.** All entries lie in the reported area, no two touch, and the hit test returns the
  one entry at a point, or none exactly if there is none. The layout is the only one with columns
  by depth, parents midway beside what is below them, siblings a gap apart and no space to spare
  (`LayoutUnique`).

## What the code does that its documentation does not say

- The matcher reports a match of length 1 at the start for a pattern without solid characters,
  also on an empty text (`FindWithoutSolid`).
- The comment on `invalidate` of the backing store promises that the entry is no longer returned;
  an entry in use still is, until its last reference is released (`StoredIsStillFetched`, and
  `FetchedAllTheSame` for exactly when).
- The header comment on `llcache_process_metadata` promises to change the object only on
  success; its headers are gathered as they are read, also when a later line is bad
  (`FailureLeavesHeader`, and `LeftExact` for exactly when).
- The note on replay in `llcache_object_notify_users` does not hold for certificates: the user
  is already past that state (`CertsNotReplayed`, and `ReplayExact` for exactly which events).
- Blanks before a header name make the scan for the end of the value start past the string, so
  that the value keeps its trailing blanks (`IndentedLineChanges`).
- `llcache_clean` says that the candidate count of uncacheable objects is always 0; forced
  streaming can move a counted object to that list (`CountedUncached`, and `StepUncounted` for
  exactly when). The code looks at the count all the same.

## Model

| member | source | states |
|---|---|---|
| `TextSearch.StepDecreases` | content/textsearch.c:491-576 | every turn of the loop that goes on lowers a lexicographic measure over the stacked text positions and the pattern left, also when the context array is full |
| `TextMeaning.PlainMatches` | content/textsearch.c:546-562 | a pattern without stars matches exactly the texts of its length that are like it wherever it has no '#'; with case, plain characters match themselves alone |
| `TextMeaning.StarMatches` | content/textsearch.c:493-521 | a pattern with a star matches exactly if what is before the star matches a beginning and what is after it an end that does not overlap |
| `TextSearchResults.FindIsSound` | content/textsearch.c:474-581 | for every text and every pattern with a solid character, a reported start and length delimit a stretch that matches the pattern |
| `TextSearchResults.FindWithoutSolid` | content/textsearch.c:496-502 | without a solid character (0, 1) is always reported, which is a real match exactly for a non-empty run of stars on a non-empty text |
| `TextSearchResults.FindIsLeftmost` | content/textsearch.c:474-581 | with at most 15 interior star groups the leftmost matching start is reported, and none exactly when no stretch matches |
| `TextSearchLimit.ContextLimitIsTight` | content/textsearch.c:522-532 | for every m a concrete pattern with 16 + m interior groups and a text that it matches are reported as no match |
| `TextSearchLimit.ContextLimitExact` | content/textsearch.c:522-532 | all queries with n interior groups are answered with the leftmost match, or none exactly if there is none, exactly if n is at most 15 |
| `TextSearch.SearchSound` | content/textsearch.c:491-576 | from every reachable loop state on, what is reported matches |
| `TextSearchResults.SearchComplete` | content/textsearch.c:491-576 | from every loop state that covers all matches, the leftmost one is reported |
| `TextMatcher.PassStars` | content/textsearch.c:496-498 | the loop over further asterisks stops at the next other character or the end |
| `TextMatcher.ScanForward` | content/textsearch.c:509-520 | the forward scan stops at the first position that accepts the character |
| `TextMatcher.FindPattern` | content/textsearch.c:474-581 | the loop on its array of 16 contexts computes the reference search, and terminates |
| `HostOrder.CompareZero` | content/urldb.c:1553-1583 | two label chains compare equal exactly if they agree up to case |
| `HostOrder.CaseAlone` | content/urldb.c:1553-1583 | two names agree up to case exactly if they differ in the case of ASCII letters alone |
| `HostOrder.CompareFlips` | content/urldb.c:1553-1583 | swapping the arguments flips the sign |
| `HostOrder.CompareTransitive` | content/urldb.c:1553-1583 | the order of chains is transitive |
| `HostOrder.CompareWithLimit` | content/urldb.c:1225-1239 | the length-limited comparison followed by the length test is the full comparison |
| `HostOrder.MatchHost` | content/urldb.c:1553-1583 | the walk up two chains computes the order of their labels |
| `HostOrder.MatchString` | content/urldb.c:1204-1259 | the walk along a dotted string computes the same order, so the two comparators agree; an address is compared whole |
| `SearchTree.GrowLeft` | content/urldb.c:1592-1668 | skew and split restore the AA rules after the left child has grown by one host |
| `SearchTree.GrowRight` | content/urldb.c:1592-1668 | the same for the right child |
| `SearchTree.InsertBalanced` | content/urldb.c:1641-1668 | insertion keeps the AA rules and lifts the tree by at most one level |
| `SearchTree.InsertPlaces` | content/urldb.c:1641-1668 | the contents in order follow insertion into a sorted list, where a duplicate changes nothing |
| `SearchTree.PlacedSorted` | content/urldb.c:1641-1668 | that list stays sorted, gains exactly the new host or nothing, and then holds one equal to it |
| `SearchTree.Find` | content/urldb.c:1269-1289 | the recursive search returns a host with the sought labels exactly if the tree has one |
| `SearchTree.LevelBounds` | content/urldb.c:1592-1668 | levels bound the depth from above and the number of nodes from below |
| `SearchTree.DepthLogarithmic` | content/urldb.c:1592-1668 | a balanced tree of n nodes is at most 2·log2(n + 1) deep |
| `SearchTree.GrowKeepsIndex` | content/urldb.c:1678-1696 | over every insertion sequence the tree is balanced, sorted, logarithmic in depth, and holds one host per inserted name |
| `SearchNodes.SkewCells` | content/urldb.c:1592-1606 | rotating linked nodes in place, with the self-looping sentinel, leaves the skewed tree and touches no other node |
| `SearchNodes.SplitCells` | content/urldb.c:1615-1631 | the same for split |
| `SearchNodes.InsertCell` | content/urldb.c:1641-1668 | recursive insertion in place leaves the tree that the functional insertion computes |
| `SearchNodes.InsertHost` | content/urldb.c:1678-1696 | insertion with a new node does the same |
| `HostIndex.AttachOk` | content/urldb.c:2200-2242 | entering labels from the right keeps siblings distinct up to case and yields a node of exactly that name |
| `HostIndex.AttachTop` | content/urldb.c:2200-2242 | of the top-level parts none goes, the last label of the name is one, and no other is new |
| `HostIndex.KeyIsName` | content/urldb.c:1172-1194 | two hosts are filed under the same labels exactly if they are the same name up to case |
| `HostIndex.TreesDivide` | content/urldb.c:1172-1186 | two hosts share a search tree exactly if both are addresses, or both names with the same first letter up to case, or both names with none |
| `HostIndex.TreeAgrees` | content/urldb.c:1172-1194 | for a host whose first label is no address the tree picked from that label is the one picked from the whole host |
| `HostIndex.AddOk` | content/urldb.c:2164-2245 | one addition keeps the index true to the database and returns the node of that name |
| `HostIndex.RunOk` | content/urldb.c:2164-2245 | so does every sequence of additions |
| `HostIndex.ReturnedStays` | content/urldb.c:2164-2245 | the node returned for a name stays in the database and in its index |
| `HostIndex.RunSearchable` | content/urldb.c:1269-1289 | every reachable tree meets what a lookup asks of it |
| `HostIndex.LookupReflectsRun` | content/urldb.c:1269-1289 | after any additions a lookup finds a host exactly if it was added, up to case, and, for an address, at a time when it was the last label of no name before it; it finds the node that every addition of the host returned |
| `HostIndex.AddressShadowed` | content/urldb.c:2164-2194 | a name that ends in "[fe80::1]", added before that address, leaves the address out of the index |
| `HostIndex.LastDot` | content/urldb.c:2202 | the last dot of a string, if any |
| `HostIndex.UrlDb.FindChild` | content/urldb.c:2205-2208 | the loop over children returns the first one with the label |
| `HostIndex.UrlDb.AddHost` | content/urldb.c:2164-2245 | cutting the name up from the right in place leaves the database that the addition function computes |
| `HostIndex.UrlDb.FindHost` | content/urldb.c:1269-1289 | picking the tree and searching it returns what the sorted contents hold for the host |
| `PathTree.AddOk` | content/urldb.c:2085-2155 | an addition keeps siblings sorted and (segment, scheme, port) unique |
| `PathTree.AddReached` | content/urldb.c:2085-2155 | the added path leads to the leaf that was returned |
| `PathTree.ReachedStays` | content/urldb.c:1103-1163 | what a path led to, it leads to after every other addition |
| `PathTree.FirstAgreeing` | content/urldb.c:1323-1346 | in sorted siblings a whole segment comes first among all those it is a prefix of |
| `PathTree.MatchIsExact` | content/urldb.c:1301-1349 | for a path that is in the tree the prefix comparison finds exactly it |
| `PathTree.AddedIsMatched` | content/urldb.c:1301-1349 | after an addition and in every later state the lookup returns the leaf that it returned |
| `PathMisses.ExactReflectsRun` | content/urldb.c:2085-2155 | after any additions the paths in the tree are those added and their beginnings |
| `PathMisses.MatchOvershoots` | content/urldb.c:1323-1346 | a path of any length that is not in the tree is answered exactly if, following whole segments, one is missing, a child of that origin begins with it, and the rest is answered below the first such child |
| `PathMisses.LookupReflectsRun` | content/urldb.c:1301-1349 | after any additions a lookup answers a path exactly if it begins an added path of its origin or overshoots |
| `PathMisses.NeighbourReturned` | content/urldb.c:1323-1346 | a concrete lookup of a path never added returns a neighbour |
| `PathMisses.NeighbourEntered` | content/urldb.c:1323-1346 | a concrete lookup that goes through a neighbour in the middle of a path |
| `PathTree.IdsUnique` | content/urldb.c:1103-1163 | in every reachable tree no two nodes are the same |
| `PathTree.MatchPath` | content/urldb.c:1301-1349 | the loop over the path string computes the lookup of its segments |
| `PathNodes.FindSame` | content/urldb.c:2130-2137 | the loop over linked siblings stops at the one with this segment, scheme and port, or at none |
| `PathNodes.LinkBefore` | content/urldb.c:1143-1150 | linking a new node before another keeps the list linked in both directions, its ends included |
| `PathNodes.LinkLast` | content/urldb.c:1151-1159 | the same at the end of the list, or in an empty one |
| `PathNodes.AddPathNode` | content/urldb.c:1103-1163 | the new node is linked in after all siblings that do not compare greater, and no other link changes |
| `LinkedAdd.GrownIs` | content/urldb.c:1138-1160 | a tree with one more leaf has the families that it had, but for the node with the new child, and no node twice |
| `LinkedAdd.AddLinked` | content/urldb.c:1103-1163 | linking a new node into one list of siblings keeps the whole tree linked, parents, siblings and children alike |
| `LinkedPaths.StepNew` | content/urldb.c:2128-2142 | going on below a new node leads to the tree that the recursive addition computes |
| `LinkedPaths.AddPath` | content/urldb.c:2085-2155 | the loop down the linked tree leaves it linked throughout, holding the tree with the path added, and returns its leaf |
| `PathWalk.MoveDown` | content/urldb.c:383-395 | descending to the first child advances the walk by exactly the node left behind |
| `PathWalk.MoveNext` | content/urldb.c:439-452 | going on to a sibling leaves exactly the nodes after it |
| `PathWalk.MoveUp` | content/urldb.c:454-459 | what is left after a last sibling is what is left after its parent |
| `LinkedTree.LeadsDown` | content/urldb.c:383-395 | in a tree linked throughout the children link of a node leads to its first child, and is null exactly at a leaf |
| `LinkedTree.LeadsOn` | content/urldb.c:439-460 | the next link leads to the next sibling and is null exactly at the last, the parent link to the parent, and no node below it is the root |
| `LinkedWalk.Leave` | content/urldb.c:439-460 | with one pointer and no stack, the loop comes to the node that follows a leaf, or back to the root exactly if none does, and cuts the buffer to match |
| `LinkedWalk.WritePaths` | content/urldb.c:352-463 | the walk along the links terminates and writes every leaf to be kept once, in sibling order, with the path in the buffer |
| `LinkedWalk.CountUrls` | content/urldb.c:473-505 | the count equals the number of records that WritePaths writes |
| `PathWalk.TextIsJoin` | content/urldb.c:379-391 | the text in the buffer is the '/'-join of the segments from the root |
| `PathWalk.WrittenExactly` | content/urldb.c:397-400 | of the nodes walked exactly the leaves are written that persist, or were visited and after the expiry time, each once |
| `PathWalk.SegmentsReach` | content/urldb.c:352-463 | the segments of a node lead back to it |
| `PathWalk.AddAgain` | content/urldb.c:2085-2155 | adding a path that is there changes nothing and returns its node |
| `PathWalk.WrittenReadsBack` | content/urldb.c:2108-2144 | adding the path that a record spells leads back to its leaf |
| `UseMap.Decode` | content/fs_backing_store.c:1587-1589 | a block number decodes to the file, byte and bit that it was made from |
| `UseMap.BitChanged` | content/fs_backing_store.c:426-434 | setting or clearing one bit changes the mark of one block |
| `UseMap.ClearBit` | content/fs_backing_store.c:944-952 | the scan of a byte that is not full finds its first clear bit |
| `UseMap.ScanFile` | content/fs_backing_store.c:942-954 | the scan of one file finds its first byte that is not full, if any |
| `UseMap.AllocBlock` | content/fs_backing_store.c:932-958 | the smallest clear block is marked and returned, 0 if there is none, and no other mark changes |
| `UseMap.ClearBlock` | content/fs_backing_store.c:426-434 | the bit of one block is cleared |
| `StoreInvariant.ChosenIsFree` | content/fs_backing_store.c:1031-1034 | a chosen block was free, is not the sentinel, and no element of that kind holds it |
| `StoreInvariant.InvalidateKeeps` | content/fs_backing_store.c:459-498 | invalidation keeps the invariant and the contents of every other entry |
| `StoreInvariant.PutKeeps` | content/fs_backing_store.c:974-1043 | a store keeps the invariant, makes the new contents readable and disturbs no other element |
| `StoreInvariant.PutReadsBack` | content/fs_backing_store.c:1753-1848 | what was just written, to a block or a file, is what is read back |
| `StoreRuns.ComparIsOrder` | content/fs_backing_store.c:504-544 | compar is a total preorder, entries in use last, and others exactly by use count and then by time of last use, the lesser first |
| `StoreRuns.EvictIsPrefix` | content/fs_backing_store.c:618-634 | eviction processes a prefix of the order, no longer than it takes, and lowers the total by the sizes of the entries in it that are not in use |
| `StoreRuns.PinnedReachedLast` | content/fs_backing_store.c:504-544 | an entry in use is reached only when no other is left in the table |
| `StoreRuns.EvictResult` | content/fs_backing_store.c:577-643 | both, for every list that the sort may produce, with the exact place at which the loop stops |
| `StoreEviction.LeastUsedGo` | content/fs_backing_store.c:504-643 | every entry that eviction removes was used less often than every entry out of use that it leaves, or as often and no later |
| `StoreEviction.EvictMakesRoom` | content/fs_backing_store.c:577-643 | below the limit nothing is evicted; otherwise more than the hysteresis is given back, or only entries in use are left |
| `StoreEviction.UseIsRecorded` | content/fs_backing_store.c:907-927 | from its store on, over every run, an entry tells how often it was used, modulo 65536, and when last |
| `StoreEviction.PlaceOf` | content/fs_backing_store.c:1026-1034 | data of at most a block goes to the first free block, to a file only if none is free; longer data to a file unless the element has a block |
| `StoreRuns.StepKeeps` | content/fs_backing_store.c:1688-2014 | every operation keeps the invariant (blocks marked and held once, sizes summed, allocations true to the disc) and whatever it neither removes nor writes |
| `StoreRuns.RunKeeps` | content/fs_backing_store.c:1688-2014 | so does every run |
| `StoreRuns.RunSpares` | content/fs_backing_store.c:1688-2014 | an element that a run neither removes nor writes reads as before |
| `StoreRuns.StoredIsFetched` | content/fs_backing_store.c:1688-1939 | what was stored is what is fetched after any such run |
| `StoreRuns.EmptyInv` | content/fs_backing_store.c:1253-1258 | the invariant holds at the start, with only the sentinel block marked |
| `StoreRefs.StepRefs` | content/fs_backing_store.c:1731-1742 | every operation keeps an element's count equal to the references held while it has an allocation |
| `StoreRefs.RunRefs` | content/fs_backing_store.c:1859-1985 | over every run entries with references stay, and entries marked invalid are there only while they have one |
| `StoreRefs.ReleaseFrees` | content/fs_backing_store.c:1949-1985 | the allocation goes exactly with the last reference, and a marked entry leaves with the last to either element |
| `StoreInvalidation.InvalidateErases` | content/fs_backing_store.c:459-498 | an entry out of use is gone after an invalidation, neither kind is found, and exactly its size, blocks and files are given up |
| `StoreInvalidation.InvalidateMarks` | content/fs_backing_store.c:459-480 | an entry in use is marked and keeps its places and allocations, and nothing else changes |
| `StoreInvalidation.FetchedAllTheSame` | content/fs_backing_store.c:1988-2014 | right after an invalidation an element is still fetched exactly if its entry was in use and the element is there |
| `StoreInvalidation.StoredIsStillFetched` | content/fs_backing_store.c:1988-2014 | so what was stored and not released is, against the comment on invalidate |
| `StoreInvalidation.InvalidatedIsGone` | content/fs_backing_store.c:1949-2014 | over every run from an invalidation to the next store of the URL it is in the table exactly as long as a reference is held, and without one every fetch fails |
| `StoreInvalidation.GoneStaysAway` | content/fs_backing_store.c:1988-2014 | a URL that is gone is not found again until it is stored |
| `StoreLimits.OversizeSparesIff` | content/fs_backing_store.c:1031-1034 | re-storing more than a block holds, over a kept block, spares all others whatever the bytes exactly if none lies in the blocks run over |
| `StoreLimits.NeighbourOverwritten` | content/fs_backing_store.c:1031-1034 | a concrete run in which it destroys another page's data |
| `BackingStore.FileStore.constructor` | content/fs_backing_store.c:1253-1258 | an empty store with the sentinel marked |
| `BackingStore.FileStore.InvalidateElement` | content/fs_backing_store.c:417-450 | in place, what the model's function does |
| `BackingStore.FileStore.InvalidateEntry` | content/fs_backing_store.c:459-498 | the same, an entry in use being only marked |
| `BackingStore.FileStore.EvictInOrder` | content/fs_backing_store.c:617-634 | the eviction loop does the same |
| `BackingStore.FileStore.Evict` | content/fs_backing_store.c:577-643 | nothing below the limit; otherwise room is made as far as entries in use allow, and what is removed was used least |
| `BackingStore.FileStore.SetEntry` | content/fs_backing_store.c:1004-1043 | the entry's new element, the total and the block bit, as the model has them |
| `BackingStore.FileStore.WriteElement` | content/fs_backing_store.c:1583-1683 | the bytes go to the element's block or file and nowhere else |
| `BackingStore.FileStore.Store` | content/fs_backing_store.c:1695-1726 | evict, refuse an element in use, set the entry and write |
| `BackingStore.ReadFile` | content/fs_backing_store.c:1810-1848 | however few bytes each read returns, the first bytes of the file come back, or nothing exactly if it is shorter than the element |
| `BackingStore.FileStore.Fetch` | content/fs_backing_store.c:1859-1939 | returns the contents and counts the reference |
| `BackingStore.FileStore.Release` | content/fs_backing_store.c:1949-1985 | drops a reference, and with the last one the allocation and a marked entry |
| `BackingStore.FileStore.Invalidate` | content/fs_backing_store.c:1997-2014 | an entry out of use is erased with its size, blocks and files; one in use is marked and keeps everything; an unknown URL is not found |
| `Delivery.DeliverOk` | content/llcache.c:3387-3600 | whatever a client answers, its handle tells exactly what it has taken; if it goes on to the end it is caught up |
| `Delivery.PassOk` | content/llcache.c:3355-3605 | a pass over all users keeps that for each of them, present or gone |
| `Delivery.PassCatchesUp` | content/llcache.c:3355-3605 | one pass with clients that agree loses no user and leaves every one caught up |
| `DeliveryFairness.VerdictExact` | content/llcache.c:3436-3596 | a user is first sent the event due to it, and its last reply alone decides: to go on exactly if it agreed to all, to the next user exactly on a request for replay, to stop exactly on an error, and it is gone exactly if it left |
| `DeliveryFairness.PassServes` | content/llcache.c:3355-3605 | a pass serves the users in turn, whatever they answer, up to the first error or failed departure; each one served is caught up or due the same event again; the others are as they were, and the pass fails exactly if there was such a reply |
| `DeliveryFairness.NobodyStarves` | content/llcache.c:3548-3557 | without such replies every user is served, however many ask for replay |
| `Delivery.StepOk` | content/llcache.c:3094-3178 | headers, data, the end, new users and passes all keep it |
| `Delivery.RunOk` | content/llcache.c:3355-3605 | over every run accepted payloads add up to the source up to the byte count, headers come once and before data, the end at most once and with all data |
| `DeliveryReplay.FirstSent` | content/llcache.c:3436-3596 | delivery first sends the event that is due, and none exactly if none is due |
| `DeliveryReplay.ReplayExact` | content/llcache.c:3459-3469 | a client that asks for replay is due the very event again exactly if it was not its certificates |
| `DeliveryReplay.CertsOnce` | content/llcache.c:3436-3473 | in every run a user is sent its certificates at most once by these passes |
| `DeliveryReplay.CertsNotReplayed` | content/llcache.c:3459-3469 | a concrete run in which a client asks for them again and is sent nothing |
| `DeliveryNotify.CacheObject.ProcessData` | content/llcache.c:2545-2600 | the buffer grows when it would be full, and then holds the old data followed by the chunk |
| `DeliveryNotify.CacheObject.Begin` | content/llcache.c:3436-3473 | the handle's fields after the certificates on every answer, and the verdict that the reply asks for |
| `DeliveryNotify.CacheObject.TellHeaders` | content/llcache.c:3475-3508 | the same for the headers, put back on a request for replay |
| `DeliveryNotify.CacheObject.TellData` | content/llcache.c:3510-3562 | the same for data, the byte count put back on replay |
| `DeliveryNotify.CacheObject.TellDone` | content/llcache.c:3564-3596 | the same for the end |
| `DeliveryNotify.CacheObject.Deliver` | content/llcache.c:3436-3596 | the user is told what is due, and the verdict is that of its last reply |
| `DeliveryNotify.CacheObject.NotifyUsers` | content/llcache.c:3355-3605 | the loop over a list that loses users on the way leaves the users of the reference pass, and reports failure exactly if that pass fails |
| `Headers.SplitFinds` | content/llcache.c:479-572 | the name and value of a field of section 3.2 of RFC 7230 are found whatever the blanks around them; blanks before the name leave those after the value in it |
| `Headers.SplitMade` | content/llcache.c:479-572 | every flush line with a colon is such a field around its trimmed name and value |
| `Headers.SplitBare` | content/llcache.c:510-528 | a line without colon is a trimmed name and an empty value |
| `Headers.SplitLine` | content/llcache.c:496-572 | a header printed as a line splits into itself exactly if it is clean |
| `Headers.SplitHeader` | content/llcache.c:496-572 | the pointer walk computes the split, also where it reads past the string |
| `Headers.Duplicate` | content/llcache.c:561 | strndup with its count, a wrapped one being no limit |
| `Headers.GatherProper` | content/llcache.c:734-808 | the headers of every response with flush lines are clean, and only the first can start a response |
| `Headers.GatherRoundTrip` | content/llcache.c:734-808 | headers printed as lines and gathered again come back exactly if they are proper |
| `Headers.IndentedLineChanges` | content/llcache.c:502-505 | a concrete line with a blank before its name whose header does not come back |
| `Metadata.ScanDecimal` | content/llcache.c:1385-1394 | a number printed is read back |
| `Metadata.DecimalLength` | content/llcache.c:1340-1348 | a number has at most k digits exactly if it is below the k-th power of ten |
| `Metadata.SpaceSuffices` | content/llcache.c:1340-1358 | the space worked out suffices exactly if the five numbers have at most 59 digits between them |
| `Metadata.SamplePrinted` | content/llcache.c:1360-1461 | the lines of a sample object: URL, length, three times, number of headers, header, no certificates |
| `Metadata.RoundTrip` | content/llcache.c:1531-1774 | parsing what was printed gives back URL, length, times and headers in order exactly if the URL has at least 7 characters and the headers are proper |
| `Metadata.FetchedRoundTrip` | content/llcache.c:1531-1774 | so it does for every object whose header lines came flush |
| `Metadata.Put` | content/llcache.c:1373-1383 | a line and its terminator are written exactly if there is room |
| `Metadata.Serialise` | content/llcache.c:1321-1515 | sizing, then filling the buffer, yields the printed form, or fails exactly when the space does not suffice |
| `MetadataReader.LineLength` | content/llcache.c:1574-1578 | strlen at the cursor finds the next line and moves past it |
| `MetadataReader.CacheRecord.ProcessHeader` | content/llcache.c:734-808 | the object's headers after one line |
| `MetadataReader.CacheRecord.ReadHeaders` | content/llcache.c:1664-1676 | the loop gathers as many lines as announced, or all there are before it runs off the buffer |
| `MetadataReader.CacheRecord.ProcessMetadata` | content/llcache.c:1531-1774 | the cursor over the buffer computes the parse of its lines; on success the object holds it, on failure only headers have changed, to those of the lines read |
| `MetadataFailure.LeftExact` | content/llcache.c:1664-1676 | a new object is left without headers exactly if no line read as a header has a name, none being read if one of the first six lines is at fault |
| `MetadataFailure.ParseExact` | content/llcache.c:1571-1691 | exactly which lines a parse accepts, and the object that it makes of them |
| `MetadataFailure.OtherUrlRefused` | content/llcache.c:1588-1604 | metadata of another URL is refused as such, before any header is gathered |
| `MetadataFailure.FailureLeavesHeader` | content/llcache.c:1682-1691 | a concrete buffer whose parse fails after a header was gathered |
| `CacheLifetime.UnpointOk` | content/llcache.c:3123-3127 | releasing a candidate decrements a live object's count and leaves every count at least the number of objects that point at it |
| `CacheLifetime.DestroyOk` | content/llcache.c:1058-1107 | destroying objects without users, fetch or count leaves no handle and no candidate dangling |
| `CacheLifetime.RetrieveOk` | content/llcache.c:1913-2075 | every retrieval keeps the invariant, hands out an object whose data is at hand, and destroys at most one whose data was on disc only |
| `CacheRetrieval.FreshIsShared` | content/llcache.c:1971-1987 | the newest object, if fresh and its data at hand or restored, is handed out itself; no object and no fetch is added, whether or not one could start |
| `CacheRetrieval.StaleIsValidated` | content/llcache.c:2003-2043 | a stale one is validated by a new object whose candidate it is and counts one more; if no fetch starts nothing is added |
| `CacheRetrieval.LostIsReplaced` | content/llcache.c:1989-2001 | one whose data is lost is destroyed and fetched anew |
| `CacheRetrieval.MissIsFetched` | content/llcache.c:2061-2074 | what is neither cached nor stored is fetched into the cached list |
| `CacheRetrieval.UncacheableIsFetched` | content/llcache.c:2123-2142 | what must not be cached is fetched into the uncached list |
| `CacheRetrieval.StoredIsRevived` | content/llcache.c:1942-1966 | what is stored but not cached becomes the newest object, complete and on disc, and is then handled like any other |
| `CacheRetrieval.HitsShare` | content/llcache.c:1930-1987 | however many clients ask for a URL while its newest object is fresh, all share it and nothing is fetched |
| `CacheLifetime.StillFreshOk` | content/llcache.c:2478-2535 | the candidate that takes over the users is live and has its data |
| `CacheMessages.ValidatedIsFound` | content/llcache.c:2478-2535 | after a 304 for the latest request the candidate is what the next search finds |
| `CacheMessages.BodyReceived` | content/llcache.c:2545-2600 | headers, any chunks and the end leave the object complete, as long as all chunks together, in memory unless empty, and change nothing else |
| `CacheMessages.NewVersion` | content/llcache.c:2545-2570 | the first data releases the candidate, and the object keeps its users |
| `CacheMessages.GivenUp` | content/llcache.c:2610-2792 | a fetch that is given up leaves its object complete as it is, with its users |
| `CacheMessages.FailedGivesWay` | content/llcache.c:2610-2792 | and such an object is not found in place of one that was requested at some time |
| `CacheMessages.RedirectRefused` | content/llcache.c:2337-2400 | a redirect that is not allowed, or one too many, retrieves nothing and moves no user |
| `CacheMessages.AbortCopies` | content/llcache.c:4140-4184 | a client that aborts beside others gets a private, complete copy of what there is, and the fetch goes on for the others |
| `CacheMessages.AbortStops` | content/llcache.c:4185-4196 | one that aborts alone stops the fetch |
| `CacheMessages.StreamedIsHidden` | content/llcache.c:4202-4221 | an object streamed by its only client is found by no search any more |
| `CacheLifetime.RedirectedOk` | content/llcache.c:2337-2455 | a redirect keeps the invariant, the redirecting object included |
| `CacheLifetime.PersistExact` | content/llcache.c:2974-3085 | writing to the store keeps the invariant exactly if what is written has data in memory or no users |
| `CacheLifetime.BodiedIfNonEmpty` | content/llcache.c:2974-3085 | which is so whenever only non-empty bodies are written |
| `CacheLifetime.CleanOk` | content/llcache.c:3767-3929 | the five passes of cleaning destroy idle objects only |
| `CacheCleaning.CleanExact` | content/llcache.c:3767-3929 | for each object: idle uncacheable and stale ones go, all idle ones if the passes get all the way; one in use stays unchanged but for being on disc; data leaves memory only if on disc; passes that get nowhere take nothing else |
| `CacheCleaning.CleanBeside` | content/llcache.c:3767-3929 | cleaning touches no handle and makes nothing new |
| `CacheLifetime.StepOk` | content/llcache.c:3094-3305 | every call and message keeps the invariant, destroys nothing in use, and takes away no handle but a closed one |
| `CacheLifetime.RunOk` | content/llcache.c:3094-3305 | in every reachable state handles and candidates are live, counts are at least the pointers, and objects with data on disc only are unused |
| `CacheLifetime.RunSpares` | content/llcache.c:3767-3929 | no step of any run destroys an object with users, a fetch, or a live object pointing at it |
| `CacheLimits.EmptyBodyDestroyed` | content/llcache.c:1979-1997 | a run with an empty response, written to the store, after which a client's object is gone |
| `CacheSurplus.StepDrift` | content/llcache.c:3094-3305 | in every step the count of an object beyond its pointers grows by exactly the number of objects destroyed with it still set as their candidate |
| `CacheLeaks.SurplusIsLeaked` | content/llcache.c:1058-1107 | in every run the count of an object exceeds its pointers by exactly the number of objects so destroyed |
| `CacheLeaks.SurplusStays` | content/llcache.c:1058-1107 | that surplus never falls |
| `CacheLeaks.CountsExact` | content/llcache.c:1058-1107 | all counts equal the pointers exactly if no step destroyed an object whose candidate is still there |
| `CacheLimits.CountTooHigh` | content/llcache.c:4185-4196 | a run after which an object counts as a candidate and nobody points at it |
| `CacheLeaks.CountStaysHigh` | content/llcache.c:4185-4196 | in every state after that run which still has the object, its count is too high |
| `CacheLists.StepUncounted` | content/llcache.c:4202-4221 | from a state without counted uncached objects a step leads to one with exactly if it is a forced stream by the only user of a counted cached object |
| `CacheLists.RunUncounted` | content/llcache.c:3789 | no run without such a step has a counted object on the uncached list, or an object on both lists |
| `CacheLists.CountedUncached` | content/llcache.c:3789 | a concrete run that has one |
| `CacheService.StepAlive` | content/llcache.c:3094-3305 | a step leaves every object being fetched or complete exactly if no fetch with credentials or downgraded fails to start; a retry that fails to start completes the object |
| `CacheService.RunServes` | content/llcache.c:3094-3305 | so in every such run each client's object is live, and being fetched or complete |
| `FetchPointer.EndedAborted` | content/llcache.c:3281-3301 | the error handling aborts a fetch that has ended exactly after a timeout with a retry left that does not start, whatever the clients answer |
| `FetchPointer.FetchingIsRunning` | content/llcache.c:3094-3305 | followed step by step, the fetch that an object records after a message is running exactly if the protocol has it fetching |
| `CacheService.CandidateTakesOver` | content/llcache.c:2478-2535 | after a 304 exactly the users of the object are its candidate's, and none is left behind |
| `CacheService.CandidateReleased` | content/llcache.c:2498-2499 | the candidate keeps its data, counts one less, and one object less points at it |
| `CacheService.RetrieveTarget` | content/llcache.c:2089-2161 | a retrieval yields an object at the URL asked for whenever a fetch can be started, and changes no handle and no count of hops |
| `CacheService.TargetTakesOver` | content/llcache.c:2427-2452 | after a redirect exactly the users of the object are those of an object at the target, and one more hop is counted |
| `CacheWork.RefetchFrugal` | content/llcache.c:2610-2792 | each further fetch uses up a retry, the credentials or the downgrade |
| `CacheWork.RedirectedOk` | content/llcache.c:2337-2455 | a redirect ends the object's fetch, so that a client's request has one fetch under way, which knows its hops |
| `CacheWork.StepOk` | content/llcache.c:3094-3305 | every call and message keeps the bounds |
| `CacheWork.RunBounded` | content/llcache.c:2337-2792 | in every run an object is fetched at most max(attempts, 1) + 2 times, is at most limit + 1 redirects on, and a client's request leads to at most limit + 1 retrievals through redirects |
| `CacheBounds.FetchBoundMet` | content/llcache.c:2610-2792 | for every configuration a run meets the bound on fetches |
| `CacheBounds.RedirectBoundMet` | content/llcache.c:2337-2455 | and one the bound on redirects |
| `ObjectCache.NewestIs` | content/llcache.c:1931-1940 | the object searched for has the latest request time among those at the URL, and is the first such in the list |
| `ObjectCache.FindNewest` | content/llcache.c:1931-1940 | the loop along the links of the cached list finds it |
| `ObjectLists.PushFront` | content/llcache.c:1116-1127 | a node put in at the head leaves a list linked in both directions |
| `ObjectLists.Remove` | content/llcache.c:1266-1278 | a node taken out anywhere leaves the rest linked in both directions, its head included |
| `ObjectLists.MoveAll` | content/llcache.c:2442-2448 | the loop that unlinks users as it walks them moves all of them, in the opposite order, and points their handles to the other object |
| `ObjectCache.Discard` | content/llcache.c:3783-3802 | a pass that unlinks objects from the list that it walks takes out exactly the idle ones that it gets to and that are picked |
| `ObjectClean.CleanLists` | content/llcache.c:3767-3929 | the passes over the two linked lists leave the objects and records that the cleaning of the protocol leaves |
| `FetchScheduler.DispatchKeeps` | content/fetch.c:236-265 | dispatch keeps the rings in order and every fetch, and stops only for one of four reasons |
| `FetchScheduler.StepKeeps` | content/fetch.c:153-265 | starting, polling and removing keep the invariant |
| `FetchScheduler.RunKeeps` | content/fetch.c:153-265 | over every run each fetch is in exactly one ring, matching its flag, and neither limit is exceeded |
| `FetchScheduler.Scheduler.CountByHost` | content/fetch.c:187-189 | the fetches of a host in the active ring |
| `FetchScheduler.Scheduler.Scan` | content/fetch.c:178-206 | skipping runs of one host still finds the first queued fetch whose host has room |
| `FetchScheduler.Scheduler.ChooseAndDispatch` | content/fetch.c:178-206 | dispatches that fetch, if any, and tells whether it started |
| `FetchScheduler.Scheduler.DispatchJobs` | content/fetch.c:236-265 | the loop does what the reference dispatch does |
| `FetchScheduler.Scheduler.RemoveFromQueues` | content/fetch.c:775-798 | a live fetch is in neither ring then, every other one stays in its ring, and the rings are in order |
| `FetchScheduler.Scheduler.StartFetch` | content/fetch.c:529-536 | a new fetch joins the queue, and dispatch follows |
| `FetchOrder.RunInTurn` | content/fetch.c:153-167 | in every run the queue is in the order in which its fetches arrived or last failed to start |
| `FetchOrder.FirstInTurn` | content/fetch.c:178-206 | of the queued fetches with room the one that joined first is tried; it goes to the end of the active ring or back to the end of the queue, and the others keep their places |
| `HistoryLayout.LayoutOk` | desktop/browser_history.c:193-221 | a subtree stays in its band, right of its column, within the width, its entries apart; `HistoryShape.LayoutShape` says where each stands |
| `HistoryLayout.LayoutFits` | desktop/browser_history.c:232-248 | for every tree all rectangles lie in the reported area and no two have a point in common |
| `HistoryShape.LayoutShape` | desktop/browser_history.c:193-221 | a subtree fills its band, children stand one entry and gap to the right, siblings one gap apart, and every parent midway between the least y and the greatest lower edge below it |
| `HistoryShape.LayoutPlaces` | desktop/browser_history.c:232-248 | so does the whole history, entry for entry the one given, in the least area that holds it and half a gap on each side |
| `HistoryShape.LayoutUnique` | desktop/browser_history.c:193-248 | and the layout given is the only one, with that width and height, of which this is so |
| `HistoryLayout.FindsFirst` | desktop/local_history.c:260-285 | the recursive search returns the first entry, parents first, that covers the point |
| `HistoryLayout.HitIsUnique` | desktop/local_history.c:260-285 | in a laid out history that is the only one, and none is returned exactly if none covers the point |
| `HistoryNodes.LayoutChildren` | desktop/browser_history.c:208-214 | the loop along the forward and next links writes the positions of the reference layout |
| `HistoryNodes.LayoutSubtree` | desktop/browser_history.c:193-221 | so does the recursion, touching nothing else: the entries fill the band from the given corner, each in place beside its children |
| `HistoryNodes.LayoutWhole` | desktop/browser_history.c:232-248 | the layout of the whole history is well placed, in the least area; without entries only the margins are left |
| `HistoryNodes.FindPosition` | desktop/local_history.c:260-285 | the same, and none for no entry |
| `HistoryNodes.FindEntry` | desktop/local_history.c:260-285 | the search along the forward and next links returns the reference result |

## Left out

Assumptions:

- HostIndex.LookupReflectsRun: hosts have at most 255 characters, the test for IP addresses is a parameter that ignores case, and it is false on the first label of every name added; nothing is asked of other labels.
- StoreRuns.StoredIsFetched: no two live URLs share a hash, and data longer than a block is not re-stored over an element that has one; `OversizeSparesIff` says exactly when that is safe.
- StoreRuns.StepKeeps: claims that held blocks are marked, not the converse: re-storing an element leaves its old bit set. A fetch ignores the mark of an invalid entry, as the source does.
- StoreRefs.RunRefs: fewer than 256 references are held to an element, whose count is 8 bits wide.
- StoreInvalidation.InvalidatedIsGone: over runs that meet the two conditions above.
- Delivery.RunOk: messages come in the order of the fetch states and data is only appended; streamed objects, and a refetch that takes the object's state back, are not covered.
- CacheLifetime.RunOk: what is written to the store has its data in memory or no users, and data read back from the store counts as being at hand.
- Metadata.RoundTrip: no text holds a NUL, times are not negative, and reading a URL back gives that URL. Certificates are counted, not read.
- Headers.SplitHeader: as much memory can be read after the string as there are blanks before its name.
- MetadataReader.CacheRecord.ProcessMetadata: the buffer ends in a NUL; running off its lines, which the source does not guard against, is an error of its own.
- CacheWork.RunBounded: a redirect to an object that another request is fetching counts towards that other request from then on.
- HistoryLayout.LayoutFits: sizes and gaps are positive; so too in HistoryShape.LayoutUnique.
- DeliveryFairness.PassServes: the handles are true at the start of the pass, as Delivery.RunOk shows that they are.
- CacheCleaning.CleanExact: how far the last three passes get is an input; between nowhere and all the way it says only what they may take.

Not modelled:

- Memory exhaustion, failing file operations and the reading and writing of the entries and control files of the backing store.
- URL parsing, character sets, ports beyond 16 bits, fragments, the bloom filter, cookies and the saving of the database as a file.
- The host and search trees inside `UrlDb` linked in place: they are values. Search tree nodes are linked in `SearchNodes`, path trees in `LinkedTree`, cache lists in `ObjectLists`.
- The handlers of fetch messages and the retrieval as code on linked objects: they are functions on the protocol's state. The lists that they walk and relink are linked, the objects' records are values.
- Clients that call back into the cache while they are called, other than to release the handle concerned; a release during a callback is a step of its own.
- The cache control data of objects, apart from the request time: freshness, lifetimes and HSTS are inputs of each step, and so are the answers of the fetchers and the clock.
- The running size in `llcache_clean`: how far its last three passes get is an input. So is which objects `llcache_persist` has time for.
- 32-bit widths of sizes and counters, other than the 8-bit references and 16-bit use counts of the backing store.
- The hash table and ring macros: a table is a map, a ring a sequence.
- Reading of numbers with a sign, or beyond 64 bits, in metadata.
- Everything else in the browser: rendering, the high-level cache, content sniffing, frames and the user interface.
