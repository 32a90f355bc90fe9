# NetSurf core: a model in Dafny

This project models the parts of the NetSurf browser that keep state or do
arithmetic of their own, and proves what they are relied on for. The command
`dafny verify dfyconfig.toml` checks all of it.

| files | what they model |
|---|---|
| `HostOrder`, `HostPart`, `SearchTree`, `HostTree`, `HostNames`, `HostIndex`, `HostDatabase`, `FoundNames`, `HstsRuns` | the host tree of the URL database, the balanced trees that index it, the names that can be found in it, and the HSTS policies on its nodes, set and asked for |
| `PathTree`, `PathWalks`, `PathDestroy`, `PathTable` | the tree of paths below a host, with links in all directions, and the walks over it that need no stack |
| `BlockUse`, `StoreDisk`, `StoreSpec`, `EvictionOrder`, `EntriesFile`, `BackingStore`, `HeldMemory` | the cache on disc: a block allocator, entries with counted references, eviction, and the files that outlive a session |
| `Delivery` | how clients of the low-level cache are brought up to date with a fetch |
| `CacheObjects`, `CacheCleaning` | which cached objects are used, or kept as candidates, when they may be destroyed, and which of them are when there is too much |
| `FetchHeaders`, `Metadata` | headers, and the metadata written with an object |
| `TextSearch` (with `Ascii`) | the wildcard matcher behind "find in page" |
| `FetchScheduler` | the rings of active and queued fetches and their limits |
| `HistoryLayout`, `HistoryClone` | the local history: adding to it, its picture, the entry at a point, and its copy for a new window |
| `FramesetLayout` | the division of a window among frames |

Where the source changes things in place, the model does too: the nodes of the
trees and lists are objects that are relinked, use maps and sizes are arrays,
and tables are fields that methods reassign. Each such method is proved against
a specification that is a function of values, and the properties are proved of
that. The backing store, fetchers, clocks and clients are outside: what they
answer is a parameter, or may be anything.

## What turned out not to hold

Some things that the source or its comments say are true only under a
condition. The condition is part of what is proved.

- The matcher finds the leftmost, shortest match if and only if the pattern has
  fewer than 16 inner groups of asterisks (`TextSearch.CapacityIsExact`). An
  empty pattern, or one of asterisks alone, is always reported at position 0
  with length 1.
- A domain name that was added is found as its node exactly if it has at most 255
  characters and does not start with a segment that is an IP address
  (`HostIndex.AddedDomainIsFound`, `FoundNames.AddAndFind`); the others lose their
  end, or are put into the wrong tree. This holds whatever else was added.
- An IP address that was added is found as its node exactly if a name put that
  node into the index, and no node above it in the tree starts with the address
  (`HostIndex.AddedIpIsFound`). A name puts it there if the address is all that
  is stored of it, unless it is the address itself and some name that was added
  before ends with it. So an address that a name ends with cannot be found when
  it is added later (`FoundNames.AddBothAndFind`), and two names that start with
  an address keep it from being found although it was added before them
  (`FoundNames.ThreeNames`).
- For names that cannot be found no HSTS policy is stored, and none applies: a
  host below a domain with includeSubDomains is not known if its name is too long
  (`HostDatabase.Database.GetHstsEnabled`, `HostDatabase.Database.SetHstsPolicy`).
- A path that was not added may be found as a node whose segments are longer:
  what is found is reached by the segments of the path read as fronts
  (`PathTree.FoundByFronts`).
- The copy of a history has no layout: all its entries are at the origin until
  one is added, although the size of the picture is copied. That is a layout
  only for a single entry without gaps (`HistoryClone.CopyIsPlacedIff`).
- The backing store stays a map exactly if three kinds of store are avoided
  (`StoreSpec.PutIsSafeIff`): one that replaces an element with a block by more
  than a block (it then writes over the next block), one that replaces an
  element with a file by bytes that get a block (the file is never unlinked),
  and one of a URL that shares its hash with another. Two lemmas show what a
  fetch gives then.
- A 256th reference to an element makes its count wrap to 0
  (`BackingStore.Store.Fetch`). After a restart the count of an element that
  was in memory is not 0, although its flag is cleared
  (`BackingStore.ReloadKeepsCounts`).
- `llcache_handle_clone` copies the state of a handle but not how much it has
  read. The clone is shown a proper list of events exactly if the handle had
  not been shown its headers and the object is not streamed
  (`Delivery.CloneHandle`). The comment that refused certificates are shown
  again is wrong; the model follows the code.
- A streamed object forgets what it has shown, so that it can serve one user
  only. Users join one, as new users or by a redirect, exactly if it is a single
  one, there is none yet, and no data has been forgotten (`Delivery.AddUser`,
  `Delivery.MoveUsers`). The code does not look at this when a user joins.
- A client that refuses an event, and aborts its handle in the same call while
  others use the object, never gets that event: its handle moves to a copy, and
  its state is not put back (`Delivery.RefusedAndAborted`). The handle that has
  moved is consistent exactly if this was not the last answer
  (`Delivery.MissedIff`, `Delivery.NotifyUsers`).
- An object whose data cannot be read back is destroyed without a look at its
  users. That is safe exactly if it has none and no object names it, which is
  certain only if its body is not empty (`CacheObjects.ObjectCache.DestroyUnguarded`). A retrieval or a
  redirect leaves all in order exactly if no object in use was lost in this way
  (`CacheObjects.ObjectCache.HandleRetrieve`, `CacheObjects.ObjectCache.Redirect`).
- `llcache_clean` keeps the limit, or discards all that it can, if no object has
  had its data freed by an earlier cleaning (`CacheCleaning.Clean`). The size of one
  that had is taken off although it was not added, so that the sum is wrong exactly
  then (`CacheCleaning.SumIsRightIff`), and cleaning may end too early
  (`CacheCleaning.LimitIsMissed`) or discard too much.
- `SSL_CERT_ERR_MAX_KNOWN` is one too small: a certificate that was missing is
  read back as an unknown error (`Metadata.ReadIsWrittenIff`).
- A header line with white space in front can leave white space behind its
  value, which is then lost when the object is written out and read again
  (`FetchHeaders.ReadWritten`).
- Frames do not fill their window if all sizes are 0, and the last frame may
  reach beyond it by fewer pixels than there are other frames
  (`FramesetLayout.FittedFits`, `FramesetLayout.FillsIff`).

## Model

| member | source | states |
|---|---|---|
| Ascii.SameLetterIff | utils/ascii.h:212-229 | two characters are the same in lower case, or in upper case, exactly if they are the same letter of whatever case, or the same other character |
| HostOrder.CompareTransitive | content/urldb.c:1554-1583 | the order of hosts, compared part by part from the leaf up and ignoring case, is transitive |
| HostOrder.CompareFlips | content/urldb.c:1554-1583 | swapping two hosts flips the sign of their comparison |
| HostOrder.CompareZero | content/urldb.c:1554-1583 | hosts compare as equal exactly if their parts are the same but for case |
| HostOrder.CompareSameHost | content/urldb.c:1554-1583 | hosts that are the same but for case compare alike with any third |
| HostOrder.CompareWithPrefixZero | content/urldb.c:746-804 | comparing with a prefix gives 0 exactly if the host has that prefix |
| HostOrder.PrefixMonotone | content/urldb.c:746-804 | the sign of the comparison with a prefix never goes down along the order of hosts, which is why a search may be pruned |
| HostPart.MatchHost | content/urldb.c:1554-1583 | the loop over two parent chains has the sign of the order on whole hosts |
| HostPart.MatchString | content/urldb.c:1204-1259 | the loop over a node and a dotted name has the sign of the same order, so lookups agree with insertions |
| HostPart.MatchPrefix | content/urldb.c:746-804 | the loop over a node and a prefix has the sign of the comparison with the prefix |
| HostPart.BeginsIff | content/urldb.c:746-804 | the comparison with a prefix is 0 exactly if the host begins with it: with its parts, of which the last need not be complete, or with the text of an address |
| SearchTree.InsertKeepsBalance | content/urldb.c:1592-1668 | an insertion keeps all level rules of the AA tree |
| SearchTree.InsertAddsSorted | content/urldb.c:1642-1668 | the hosts in order after an insertion are those before, with the new one in its place |
| SearchTree.AddSortedIsAtRank | content/urldb.c:1642-1668 | that place is behind all smaller hosts; an equal host is not added twice |
| SearchTree.AddSortedKeepsOrder | content/urldb.c:1642-1668 | the order stays strict |
| SearchTree.InsertEqualIsNop | content/urldb.c:1642-1668 | inserting a host that is there leaves the very same tree |
| SearchTree.DepthIsLogarithmic | content/urldb.c:1270-1289 | in a tree of n hosts no way down, and so no search, has more than 2*log2(n+1) nodes |
| SearchTree.LookupFindsHost | content/urldb.c:1270-1289 | descending by comparison with a domain name finds a host exactly if an equal one is in the tree |
| SearchTree.LookupStartsWith | content/urldb.c:1270-1289 | looking for an IP address finds a host exactly if one starts with it, since only first parts are compared |
| SearchTree.LookupIsTop | content/urldb.c:1270-1289 | of the hosts that start with the address, it is the one with none of them above it |
| SearchTree.PruningIsExact | content/urldb.c:816-864 | the pruned enumeration is the full traversal filtered by the prefix, in order |
| SearchTree.SkewNode | content/urldb.c:1592-1606 | the rotation on linked nodes is the function on trees |
| SearchTree.SplitNode | content/urldb.c:1615-1631 | likewise for the other rotation |
| SearchTree.InsertNode | content/urldb.c:1642-1668 | insertion into linked nodes is the insertion into trees |
| SearchTree.SearchInsert | content/urldb.c:1679-1696 | a host is inserted with a fresh node |
| SearchTree.Find | content/urldb.c:1270-1289 | the recursive search gives what the lookup in the tree gives |
| SearchTree.IteratePartialHost | content/urldb.c:816-864 | the callback sees the hosts with the prefix, in index order, up to its first "stop", and the result says whether it stopped |
| HostTree.KeysAreUnique | content/urldb.c:1006-1031 | no two nodes of the host tree spell the same host |
| HostTree.FindChild | content/urldb.c:2199-2240 | looking among children finds the one with a part, ignoring case, or there is none |
| HostTree.AddHostNode | content/urldb.c:1006-1031 | a new child keeps the host tree in order |
| HostNames.SplitAtLastDot | content/urldb.c:2196-2240 | cutting a name at its last dot gives its segments from the end |
| HostNames.IsFoundIff | content/urldb.c:2196-2240 | a domain name fits the buffer and does not start with an IP address exactly if it is stored in full, in the tree that it is looked for in |
| HostNames.SameTreeIff | content/urldb.c:1172-1182 | two names select the same tree exactly if they start with the same letter, ignoring case, or both with none; IP addresses have a tree of their own |
| HostIndex.DomainLookup | content/urldb.c:1270-1289 | over any additions, looking for a domain name finds a node exactly if some name was added that is stored as this one, in the tree that this one selects, and then the node that spells it |
| HostIndex.AddedDomainIsFound | content/urldb.c:2164-2245 | over any additions, a domain name that was added is found as the node that adding it returned exactly if it fits the buffer and does not start with an IP address |
| HostIndex.AddedIpIsFound | content/urldb.c:2164-2245 | over any additions, an IP address that was added is found as its node exactly if a name put it into the index, and no node above it starts with it; the second condition is one on the tree |
| HostIndex.NoneIsAbove | content/urldb.c:1270-1289 | that condition holds if no domain name that was added starts with the address, which can be told from the names |
| HostIndex.AnyIpLookup | content/urldb.c:1270-1289 | a condition on the names alone: over any additions, looking for an IP address finds a node exactly if a name put that of the address into the index, or some domain name starts with the address; if none does, it is the node of the address |
| HostIndex.OneMoreName | content/urldb.c:2174-2194 | a name puts an address into the index exactly if the address is all that is stored of it, and it is no address, or no earlier name ends with it |
| HostIndex.StillAgrees | content/urldb.c:2164-2245 | adding any name keeps host tree, index trees and the names added in agreement |
| HostDatabase.Database.AddHost | content/urldb.c:2164-2245 | adds the host, returns a node whose parents spell it, and changes no other node |
| HostDatabase.Database.FindHost | content/urldb.c:1270-1289 | after any additions, the answer for any name, and for each name that was added, whether it is the node that adding it returned |
| FoundNames.AddAndFind | content/urldb.c:2164-2245 | after any additions, a domain name added last is found exactly if it fits the buffer and does not start with an IP address; an IP address that no name starts with, exactly if it was in the index or no name ends with it |
| FoundNames.AddBothAndFind | content/urldb.c:2174-2194 | an IP address that is new is found after a domain name exactly if the name does not end with it, or nothing else is stored of the name |
| FoundNames.ThreeNames | content/urldb.c:2224-2240 | an IP address is not found after two names that start with it |
| HostDatabase.Database.HstsEnabled | content/urldb.c:3606-3622 | climbing the host tree is the rule of section 8.2 of RFC 6797 |
| HostDatabase.Database.GetHstsEnabled | content/urldb.c:3573-3630 | a host is known exactly if it is no IP address, can be found, and it, or a superdomain with includeSubDomains, had an unexpired policy before the call |
| HostDatabase.Database.SetHstsPolicy | content/urldb.c:3502-3569 | for a host that is found and untainted, a header with a maximum age sets the expiry to the later of its own and the one before, and includeSubDomains to that of the header; one with 0 removes the policy; a malformed header or a tainted host changes nothing; no other policy changes; it fails exactly for domain names that cannot be found |
| HostDatabase.PolicyAfter | content/urldb.c:3539-3563 | an expiry never decreases except that a maximum age of 0 removes it, and a positive one makes it at least the present time plus that age |
| HstsRuns.StoreAndAsk | content/urldb.c:3502-3630 | once a header with a maximum age was set, the host is known until that is over, and so are the hosts below it that can be found, if the header includes them |
| HstsRuns.ForgetAndAsk | content/urldb.c:3553-3560 | once a header with a maximum age of 0 was set, the host is known exactly if a superdomain covers it |
| PathTree.PrefixSortsFirst | content/urldb.c:1134-1137 | a segment sorts before all segments that it is a prefix of |
| PathTree.AddPathNode | content/urldb.c:1104-1163 | a new node is linked at its sorted place; the list stays sorted, unique and linked both ways |
| PathTree.AddPath | content/urldb.c:2086-2155 | the returned node is reached by the segments of the path; every leaf has a URL |
| PathTree.ExactComesFirst | content/urldb.c:1325-1335 | of the siblings whose front matches a segment, the one with just that segment is first |
| PathTree.FoundByFronts | content/urldb.c:1302-1349 | whatever is found for a path is reached by its segments, read as fronts of those of the nodes |
| PathTree.MatchPath | content/urldb.c:1302-1349 | for any path, the search gives what taking the first sibling that matches, level by level, gives; a path that was added is found as its own node, although only fronts of segments are compared |
| PathTable.IsAtUnique | content/urldb.c:2105-2140 | one name leads to one node |
| PathTable.Paths.Add | content/urldb.c:2086-2155 | over any additions, the same path gives the same node |
| PathTable.Paths.Match | content/urldb.c:1302-1349 | over any additions, each added path is found as the node that its addition gave |
| PathTable.Paths.Save | content/urldb.c:554-562 | the records are exactly those of the added paths that are leaves and to be kept, each with its path, scheme and port |
| PathWalks.DownStep | content/urldb.c:368-425 | going to the first child leaves the same leaves to visit |
| PathWalks.NextStep | content/urldb.c:440-461 | climbing skips no leaf and repeats none |
| PathWalks.NextNode | content/urldb.c:493-502 | the climb ends at the next node in order |
| PathWalks.CountUrls | content/urldb.c:474-505 | the walk terminates and counts the leaves that are to be saved |
| PathWalks.IterateEntries | content/urldb.c:584-634 | the callback sees the leaves from left to right up to its first "stop", and each has a URL |
| PathWalks.WritePaths | content/urldb.c:353-463 | one record for each leaf to be saved, with the path buffer equal to the segments joined by slashes |
| PathWalks.SavePaths | content/urldb.c:554-562 | the number written in front is the number of records |
| PathWalks.JoinSplit | content/urldb.c:353-463 | joining the segments of a path gives the path back |
| PathWalks.SavedAsAdded | content/urldb.c:353-463 | what is saved for a path is the path that was added |
| PathDestroy.LeavesAreVisitedOnce | content/urldb.c:353-505 | the leaves visited are the nodes without children below the start, each once |
| PathDestroy.PostMember | content/urldb.c:2756-2784 | post-order lists just the nodes of the tree |
| PathDestroy.PostNoDup | content/urldb.c:2756-2784 | and each of them once |
| PathDestroy.PostParents | content/urldb.c:2756-2784 | and children before parents |
| PathDestroy.NotFreed | content/urldb.c:2756-2784 | the node at which the walk stands has not been freed |
| PathDestroy.DestroyPathTree | content/urldb.c:2756-2784 | below any node, every node is freed once, children before parents, and never looked at after that |
| PathDestroy.DestroyPaths | content/urldb.c:2804-2808 | the loop over the children of the root frees every node but the root, once |
| BlockUse.AllocBlock | content/fs_backing_store.c:932-958 | gives the first free block and marks it, and just it; 0 only if all are used |
| BlockUse.FreeBlock | content/fs_backing_store.c:422-432 | clears exactly the bit of a block, which undoes its allocation |
| BlockUse.JoinSplit | content/fs_backing_store.c:424-432 | file, byte and bit of a block make up its number again |
| BlockUse.FirstFree | content/fs_backing_store.c:941-953 | all blocks before the one found are used |
| BlockUse.FreshUse | content/fs_backing_store.c:1250-1256 | a new store has only block 0 taken |
| StoreDisk.WriteKeepsOther | content/fs_backing_store.c:1578-1625 | writing an element leaves other elements readable as they were |
| StoreDisk.WriteThenRead | content/fs_backing_store.c:1748-1843 | an element that was written is read back |
| StoreDisk.WideWriteOverwrites | content/fs_backing_store.c:1604-1610 | a write of more than a block replaces the bytes of the next block |
| StoreSpec.FetchIsLast | content/fs_backing_store.c:1855-1934 | a fetch gives the bytes last stored, or "not found" exactly if there is no entry or nothing was stored to the element |
| StoreSpec.MemoryChange | content/fs_backing_store.c:1890-1912 | changes in memory alone keep the invariant |
| StoreSpec.RemovedKeepsInv | content/fs_backing_store.c:418-498 | removing an entry frees just its blocks and files and keeps the invariant |
| StoreSpec.PutKeepsInv | content/fs_backing_store.c:975-1043 | storing keeps the invariant: block ownership, reserved block, no stray file, contents |
| StoreSpec.PutIsSafeIff | content/fs_backing_store.c:1025-1034 | it does so exactly under a condition on what is replaced |
| StoreSpec.OverflowIsFetched | content/fs_backing_store.c:1032-1034 | what goes wrong when a large object replaces one with a block |
| StoreSpec.StaleFileIsFetched | content/fs_backing_store.c:1032-1034 | what goes wrong when an object with a block replaces one with a file |
| EvictionOrder.ComparIsPreorder | content/fs_backing_store.c:504-544 | the comparison is a total preorder that puts entries without memory first, and of those the ones that are used less often, or as often but longer ago |
| EvictionOrder.TotalUpdate | content/fs_backing_store.c:1026-1029 | what changing an entry does to the sum of all sizes |
| EvictionOrder.UnreferencedFirst | content/fs_backing_store.c:504-544 | in a sorted list, entries in memory come after all that are not |
| EvictionOrder.ListEntries | content/fs_backing_store.c:602-617 | the list holds every entry once, sorted |
| EntriesFile.ReadWritten | content/fs_backing_store.c:1125-1206 | reading the entries file gives the entries written, without their memory, and the sum of their sizes |
| EntriesFile.DecodeEncodeEntry | content/fs_backing_store.c:654-665 | an entry is got back from its bytes |
| EntriesFile.SaveEntries | content/fs_backing_store.c:694-748 | writes a file with those contents |
| EntriesFile.LoadEntries | content/fs_backing_store.c:1146-1196 | the reading loop gives the contents of any file, or fails if it is cut off |
| EntriesFile.CutOffFails | content/fs_backing_store.c:1146-1181 | a file that ends within an entry cannot be read, unless it has less than the four bytes of the length, which are passed over |
| BackingStore.Store.InvalidateElement | content/fs_backing_store.c:418-450 | clears the bit or unlinks the file, and takes the size off the total |
| BackingStore.Store.InvalidateEntry | content/fs_backing_store.c:460-498 | removes an entry, or only marks it while it holds memory |
| BackingStore.Store.StoreEvict | content/fs_backing_store.c:577-643 | entries in memory stay, the least valuable others go, and the total falls by more than the hysteresis or none is left that could go |
| BackingStore.Store.StoreObject | content/fs_backing_store.c:1684-1721 | what is stored is fetched at once, and is held with one reference; the other element is left alone, and nothing changes but by eviction if the store is refused, which is exactly when the element is in memory; the invariant is kept exactly under the condition; if the store is not full, nothing is evicted before |
| BackingStore.Store.Fetch | content/fs_backing_store.c:1855-1934 | gives the bytes last stored or "not found", takes one reference, and leaves the other element alone; keeps the invariant exactly if the count of references is below 255 |
| BackingStore.Store.Release | content/fs_backing_store.c:1726-1737 | drops one reference; the memory is freed with the last one, and no sooner; the other element and the other entries are left alone; an entry that was invalidated goes exactly if no memory of it is left |
| HeldMemory.UseChanges | content/fs_backing_store.c:1855-1980 | a fetch or a release changes the count of its own element by one, and no other |
| HeldMemory.RunIsBalanced | content/fs_backing_store.c:1855-1980 | over any run of fetches and releases the invariant is kept, and the references of each element that was stored are those taken less those given back |
| HeldMemory.BalanceCounts | content/fs_backing_store.c:1890-1912 | if nothing is released more often than it was taken, what is left is the difference of the two numbers |
| HeldMemory.AllGivenBackIff | content/fs_backing_store.c:1726-1737 | after any such run an element is out of memory exactly if there were as many releases as stores and fetches |
| HeldMemory.NextStoreIsAccepted | content/fs_backing_store.c:1009-1016 | an element that is out of memory can be stored again, whatever is evicted before |
| BackingStore.Store.Invalidate | content/fs_backing_store.c:1993-2009 | the entry goes, unless it holds memory |
| BackingStore.Store.Finalise | content/fs_backing_store.c:1526-1567 | leaves files from which the state can be read, although they are only written if marked as changed |
| BackingStore.Initialise | content/fs_backing_store.c:1420-1514 | a store opened on such files fetches what the old one fetched |
| BackingStore.FetchKeepsInv | content/fs_backing_store.c:1890-1912 | a fetch keeps the invariant exactly below 255 references |
| BackingStore.ReloadKeepsInv | content/fs_backing_store.c:1125-1267 | a restart keeps the invariant, even if freed blocks are still marked |
| BackingStore.ReloadKeepsFetch | content/fs_backing_store.c:1125-1267 | a restart changes no fetch |
| BackingStore.ReloadKeepsCounts | content/fs_backing_store.c:1188-1192 | after a restart count and flag agree exactly if nothing was in memory |
| BackingStore.StoredIsRight | content/fs_backing_store.c:975-1043 | contents, reference counts and control files after a store |
| BackingStore.ReleasedIsRight | content/fs_backing_store.c:1944-1980 | contents, reference counts and control files after a release |
| BackingStore.NewStore | content/fs_backing_store.c:1216-1267 | the files of a new store stand for an empty one |
| Delivery.LogIsPrefix | content/llcache.c:3320-3345 | accepted events are always the first ones of HAD_HEADERS HAD_DATA* DONE |
| Delivery.AcceptedIsPrefix | content/llcache.c:3470-3490 | accepted data is the data of the object up to where the handle has read; DONE comes only after all of it |
| Delivery.FetchData | content/llcache.c:2510-2564 | new data keeps every handle consistent |
| Delivery.WellIffOn | content/llcache.c:3396-3554 | a client is called at most four times in a turn, and its handle is brought up to date exactly if each time it says that all is well |
| Delivery.OnIsCaughtUp | content/llcache.c:3396-3554 | it has then seen all that there was to show |
| Delivery.TurnShowsDue | content/llcache.c:3396-3554 | a turn shows just the events that are due, in their order, up to the first answer that is not "all is well" |
| Delivery.RefusedIsDueAgain | content/llcache.c:3415-3554 | after a refusal that puts the state back, the refused event is the next one due, with all that was due behind it |
| Delivery.TurnEndsAsAnswered | content/llcache.c:3415-3554 | a turn stops the loop exactly if its last answer is an error, or a refusal by a handle that leaves; the handle is taken out exactly if its last answer releases it, or aborts it while others use the object |
| Delivery.MissedIff | content/llcache.c:4098-4157 | an event is lost exactly if the last answer was to refuse it and to abort a handle with company |
| Delivery.RefusedAndAborted | content/llcache.c:4113-4135 | an input for which an event is lost |
| Delivery.ShowCerts | content/llcache.c:3396-3430 | a handle leaves its first state, and is shown the certificates if there are any; what follows is what the client answers; refused certificates are not shown again |
| Delivery.ShowHeaders | content/llcache.c:3432-3466 | headers are shown when they are there, and again if the client refuses them |
| Delivery.ShowData | content/llcache.c:3468-3520 | the data not yet read is shown, and again if the client refuses it and it is not streamed |
| Delivery.ShowDone | content/llcache.c:3522-3554 | DONE is shown when all data was accepted, and again if the client refuses it |
| Delivery.BringUpToDate | content/llcache.c:3347-3561 | one turn calls the client as often, with the events, and to the end that its own answers give |
| Delivery.NotifyUsers | content/llcache.c:3313-3563 | over all handles, each is called as its client's answers demand; the object and its users stay consistent, a handle that moves away is consistent exactly if no event was lost, and those brought up to date have seen everything |
| Delivery.RoundStopsIff | content/llcache.c:3313-3563 | the loop over the handles ends early exactly if some turn stops it, and that turn is the last |
| Delivery.AllAreServedIff | content/llcache.c:3347-3561 | the loop succeeds, and reaches every user, exactly if no last answer is an error or a refusal by a handle that leaves |
| Delivery.UserLeavesIff | content/llcache.c:3415-3466 | a user that was reached is gone exactly if its last answer says so, and if that was neither an error nor a refusal the next user is served |
| Delivery.WellUserIsCaughtUp | content/llcache.c:3313-3563 | a user that was reached and only answered that all is well has seen everything, whatever the others answer |
| Delivery.AbortHandle | content/llcache.c:4098-4157 | a handle with company moves to a complete copy, one without ends the fetch |
| Delivery.Abort | content/llcache.c:4098-4157 | either way handle and objects stay consistent |
| Delivery.CloneHandle | content/llcache.c:4082-4095 | a clone is consistent exactly if the handle had not been shown headers and the object is not streamed |
| Delivery.MoveUsers | content/llcache.c:2407-2413 | all users move, none is lost or doubled; all stay consistent exactly if the object they move to is not streamed, or only one comes to it while it has none and all its data |
| Delivery.AddUser | content/llcache.c:2171-2192 | a new user comes first; the object stays consistent exactly if it is not streamed, or has no other user and all its data |
| Delivery.ForceStream | content/llcache.c:4160-4179 | streaming starts only with a single user |
| CacheObjects.GiveUpCandidate | content/llcache.c:2535-2539 | giving up a candidate lowers its count by one and no other count, which keeps all counts right, and none runs below 0 |
| CacheObjects.NewObjectWithCandidate | content/llcache.c:2036-2038 | naming a candidate is counted |
| CacheObjects.DestroyIsSafeIff | content/llcache.c:1058-1107 | an object can be destroyed exactly if it has no users and nobody names it |
| CacheObjects.GuardIsSafe | content/llcache.c:3750-3760 | the guard of the cleaner is enough for that |
| CacheObjects.DiscAloneIsSafe | content/llcache.c:1990-1997 | an object with a body that is on disc alone needs no guard |
| CacheObjects.NamedIsUsable | content/llcache.c:2442-2499 | a named candidate has its data where users can get at it |
| CacheObjects.MoveAllUsers | content/llcache.c:2407-2413 | after a move each handle is in exactly one list, the one it points to |
| CacheObjects.ObjectCache.FindNewest | content/llcache.c:1932-1942 | the search gives a newest match, or there is none |
| CacheObjects.ObjectCache.RetrieveFromCache | content/llcache.c:1914-2075 | a newest match is given if it is fresh and its data is there, or becomes the candidate of a new object if it is not fresh; a new object is cached, with the time of the retrieval; an object is lost exactly if its data cannot be read; nothing is given exactly if a fetch is needed and does not start; all is in order afterwards exactly if no object in use was lost |
| CacheObjects.GivenIsCached | content/llcache.c:2036-2072 | what is given for a cachable URL is in the cache; if it had to be fetched, with the time of the retrieval |
| CacheObjects.SecondFindsFirst | content/llcache.c:1914-2075 | after a retrieval a second one for the same URL finds what was given, or something at least as new; that is given if it is fresh, or becomes the candidate of another fetch |
| CacheObjects.ObjectCache.DestroyUnguarded | content/llcache.c:1996-1997 | the unguarded destruction is safe exactly if the object is not in use, which a body that is not empty makes certain |
| CacheObjects.EmptyBodyIsMissed | content/llcache.c:1996-1997 | an object with an empty body for which it is not safe |
| CacheObjects.ObjectCache.HandleRetrieve | content/llcache.c:3990-4043 | nothing is retrieved if no fetcher can fetch the URL; else the new handle becomes a user of the object retrieved, and no other users change; there is none exactly if no object is given |
| CacheObjects.ObjectCache.NotModified | content/llcache.c:2442-2499 | all users move to the candidate, which is no longer named |
| CacheObjects.ObjectCache.Redirect | content/llcache.c:2287-2419 | all users move to the object retrieved for the new URL, unless none is given or their own object was lost; all is in order afterwards exactly if no object in use was lost |
| CacheObjects.ObjectCache.HandleAbort | content/llcache.c:4098-4157 | the handle moves to a copy unless it is alone |
| CacheObjects.ObjectCache.HandleRelease | content/llcache.c:4058-4079 | the handle is in no list any more |
| CacheCleaning.KeptIs | content/llcache.c:3742-3794 | the first two loops discard just the objects that are not needed and are uncached or stale, and find the sum of the sizes of all others |
| CacheCleaning.PassEnds | content/llcache.c:3807-3884 | each of the other loops ends as soon as the sum is within the limit, or when it has looked at all objects |
| CacheCleaning.PassChanges | content/llcache.c:3807-3884 | a loop changes only objects that nobody needs and that it is for, and leaves none of them if the sum stays above the limit |
| CacheCleaning.SumIsRightIff | content/llcache.c:3807-3826 | after data has been freed the sum is right, modulo 2^32, exactly if the sizes of data that was gone before add up to 0 modulo 2^32; these are taken off although they were not added |
| CacheCleaning.FreshLeaves | content/llcache.c:3861-3884 | the last loop does not take off URLs, headers and certificates of what it discards, so the sum is too large by just these |
| CacheCleaning.LimitIsMissed | content/llcache.c:3818-3820 | an input for which cleaning ends above the limit although objects could go |
| CacheCleaning.ByValueIs | content/llcache.c:3807-3884 | an object is discarded only after all that are worth less; if the sum stays above the limit, all that can go is gone |
| CacheCleaning.Clean | content/llcache.c:3725-3887 | no object that is used, named or being fetched goes, nor does its data; uncached and stale objects go unless they are needed; others go in the order of their value, and only if there is too much; unless some of these had their data freed before, the limit is kept, or all that can go is gone |
| FetchHeaders.SplitHeader | content/llcache.c:496-572 | the pointer loops give the name and value of a line |
| FetchHeaders.LineIsClean | content/llcache.c:496-572 | a line without white space in front gives a name without colon and trimmed texts |
| FetchHeaders.ReadWritten | content/llcache.c:496-572 | a header is got back from its written form exactly if it is clean |
| FetchHeaders.FrontSpaceIsKeptBehind | content/llcache.c:501-505 | a line that gives a header which is not clean |
| FetchHeaders.HeadersAreClean | content/llcache.c:734-808 | lists built from such lines are clean, with a status line only at the front |
| FetchHeaders.OnlyLastResponse | content/llcache.c:734-808 | the headers are all those of the last response: a status line discards what came before, and nothing behind it is lost |
| FetchHeaders.ReadAllWritten | content/llcache.c:734-808 | a clean list is got back from its written form |
| Metadata.TextFits | content/llcache.c:1340-1366 | the space computed up front is enough for what is written |
| Metadata.Serialise | content/llcache.c:1322-1515 | writes the text, or fails exactly if it is longer than that space |
| Metadata.ProcessMetadata | content/llcache.c:1532-1774 | for any text, reads what its lines say, or fails exactly where a line is missing or wrong; what was written is read back, but for error codes that are not known |
| Metadata.WhatIsRead | content/llcache.c:1532-1774 | what is read from any text has the URL asked for, which is the first line, a chain of bounded length, and no error code above the largest that is known |
| Metadata.ScanFailsIff | content/llcache.c:1614-1617 | a line is no number exactly if no digit is at its front |
| Metadata.ReadsWhatWasWritten | content/llcache.c:1532-1774 | metadata that was written is read back with the error codes that are not known turned into the unknown one |
| Metadata.ReadIsWrittenIff | content/llcache.c:1728-1734 | exactly if all error codes are at most the largest that is known |
| Metadata.MissingIsNotKnown | include/netsurf/ssl_certs.h:36-51 | the code for a missing certificate is not |
| Metadata.FetchedIsReadable | content/llcache.c:734-808 | headers of a fetched object meet the conditions for reading |
| Metadata.DecimalLength | content/llcache.c:1340-1366 | a number has no more digits than its bound |
| TextSearch.GreedyIsGlob | content/textsearch.c:475-581 | trying the nearest continuation first finds a match exactly if there is one |
| TextSearch.GreedyIsLeast | content/textsearch.c:475-581 | and the shortest |
| TextSearch.LeftMostIsFirst | content/textsearch.c:475-581 | trying starts from the left gives the first match |
| TextSearch.StepDescends | content/textsearch.c:489-577 | every round of the loop lowers a measure of position and stack |
| TextSearch.StepKeepsOutcome | content/textsearch.c:489-577 | every round keeps what the search will give |
| TextSearch.SearchIsFirstMatch | content/textsearch.c:475-581 | with at most 15 inner groups, the leftmost and shortest match, or none exactly if there is none |
| TextSearch.SearchReportsMatch | content/textsearch.c:475-581 | whatever is reported is a match |
| TextSearch.SearchForStars | content/textsearch.c:507-510 | patterns of asterisks alone are reported with length 1 |
| TextSearch.CapacityIsExact | content/textsearch.c:486-488 | the bound on inner groups is exact |
| TextSearch.FindPattern | content/textsearch.c:475-581 | the loop with its array of contexts does all this |
| FetchScheduler.SkippingScan | content/fetch.c:173-201 | going past runs of one host picks the same fetch as a plain scan |
| FetchScheduler.CountIsSize | content/fetch.c:121-139 | the count of the fetches of a host in a ring is the number of places with that host |
| FetchScheduler.AppendKeepsLimits | content/fetch.c:148-164 | starting a fetch where there is room exceeds no limit |
| FetchScheduler.RemoveKeepsLimits | content/fetch.c:767-790 | nor does removing one |
| FetchScheduler.Scheduler.AddFetcher | content/fetch.c:356-381 | a fetcher that initialises takes the first slot without references, and no other slot changes; it fails exactly if there is none, or it does not initialise |
| FetchScheduler.Scheduler.DispatchJob | content/fetch.c:148-164 | the fetch becomes active, or goes to the end of the queue if it does not start |
| FetchScheduler.Scheduler.ChooseAndDispatch | content/fetch.c:173-201 | the first queued fetch with room is asked to start; it fails exactly if none has room, or that one does not start |
| FetchScheduler.DispatchingStops | content/fetch.c:231-260 | dispatching ends only because nothing is queued, the limit is reached, nothing has room, or the last fetcher asked refused, whose fetch is then last in the queue |
| FetchScheduler.DispatchingStarts | content/fetch.c:231-260 | every fetcher asked before did start its fetch, and just those fetches have become active |
| FetchScheduler.DispatchingKeepsAll | content/fetch.c:231-260 | no fetch is lost or doubled |
| FetchScheduler.Scheduler.DispatchJobs | content/fetch.c:231-260 | for whatever the fetchers answer, the loop leaves the rings that dispatching one by one leaves; each fetch is in one ring, and no limit is exceeded |
| FetchScheduler.Scheduler.FetchStart | content/fetch.c:449-534 | fails exactly if there is no fetcher for the scheme, or it cannot set up the fetch, and then changes nothing; else the new fetch is queued with a reference to its fetcher, and dispatching follows |
| FetchScheduler.Scheduler.RemoveFromQueues | content/fetch.c:767-790 | the fetch is in no ring any more |
| FetchScheduler.Scheduler.FetchFree | content/fetch.c:548-581 | a fetcher goes only when no fetch uses it |
| HistoryLayout.History.LayoutSubtree | desktop/browser_history.c:197-225 | entries are placed below each other, and parents in the middle of their children |
| HistoryLayout.History.Layout | desktop/browser_history.c:236-252 | the whole tree is placed, with the width and height it takes up |
| HistoryLayout.InBand | desktop/browser_history.c:197-225 | every entry lies in the band given to its tree |
| HistoryLayout.MiddleIsInside | desktop/browser_history.c:197-225 | a parent is as far from the top of the band of its children as from the bottom, but for one pixel |
| HistoryLayout.BandIsFull | desktop/browser_history.c:197-225 | the band is just as high as it has to be: entries reach its top and its bottom |
| HistoryLayout.GapsAreKept | desktop/browser_history.c:197-225 | children are one gap to the right of their parent, and the trees of siblings one gap apart |
| HistoryLayout.InsidePicture | desktop/browser_history.c:236-252 | and inside the final width and height |
| HistoryLayout.PictureIsFull | desktop/browser_history.c:236-252 | entries reach each edge of the picture, but for half a gap |
| HistoryLayout.EntriesAreApart | desktop/browser_history.c:197-225 | no two entries touch, if there are gaps |
| HistoryLayout.FindEntryPosition | desktop/local_history.c:262-286 | gives an entry with the point in its rectangle, or there is none |
| HistoryLayout.HitIsUnique | desktop/local_history.c:262-286 | at most one entry has a given point |
| HistoryLayout.EntryAt | desktop/local_history.c:262-286 | after a layout, the entry found is the one whose rectangle has the point |
| HistoryLayout.LinkedAfterAdd | desktop/browser_history.c:398-416 | linking a new entry last among its parent's children keeps the tree |
| HistoryLayout.AddEntry | desktop/browser_history.c:352-423 | the new entry is the last child of the current one and becomes current, and all is placed anew |
| HistoryClone.LinkedToSnoc | desktop/browser_history.c:130-152 | a list of copies is linked up to the next child, which is not copied yet |
| HistoryClone.CloneEntry | desktop/browser_history.c:54-161 | the copy has fresh entries with the same pages, linked as the original; first, last and preferred child and the current entry are the copies of those of the original |
| HistoryClone.CloneHistory | desktop/browser_history.c:317-345 | the copy is a history of the same shape, with the copy of the current entry as the current one, and the original is untouched |
| HistoryClone.CopyIsPlacedIff | desktop/browser_history.c:121-126 | the positions in a copy are those of a layout exactly for a single entry without gaps |
| FramesetLayout.ShareBounds | desktop/frames.c:436-442 | a share is what is due to a cell, rounded towards 0: off by less than one, and never so that a size is negative |
| FramesetLayout.FittedIsProportional | desktop/frames.c:424-444 | each size but the last differs from its exact share of the window by less than one pixel, towards its old size, and the last by fewer pixels than there are other cells, unless it is 0 |
| FramesetLayout.RemainderBound | desktop/frames.c:429-434 | the last cell is short of fewer pixels than there are other cells |
| FramesetLayout.FittedFits | desktop/frames.c:424-444 | no size is negative, and they add up to the window, or exceed it by fewer pixels than there are other cells, with the last cell at 0 |
| FramesetLayout.FillsIff | desktop/frames.c:424-426 | the window is filled exactly if some size is not 0 |
| FramesetLayout.NothingToShare | desktop/frames.c:487-488 | sizes that fit stay as they are |
| FramesetLayout.Fit | desktop/frames.c:424-444 | the loops over the cells of a row or column give these sizes, in proportion to those before, and touch no others |
| FramesetLayout.FitRows | desktop/frames.c:368-445 | for all rows |
| FramesetLayout.FitColumns | desktop/frames.c:448-528 | for all columns |
| FramesetLayout.FramesTile | desktop/frames.c:531-563 | frames lie side by side without overlap |
| FramesetLayout.RowFillsWindow | desktop/frames.c:531-563 | the frames of a fitted row reach from 0 to the edge of the window, or beyond it by fewer pixels than there are other frames |
| FramesetLayout.PositionFrames | desktop/frames.c:531-563 | every frame starts at the sum of the sizes before it |

## Left out

- Cookies, URL titles, fragments and authentication data in `content/urldb.c`, and reading and writing its text file: only the records for paths are modelled.
- SearchTree.IteratePartialHost: the callback is applied to hosts; in the source it is applied to the URLs below each host, and hosts without paths are passed over.
- HostTree.AddHostNode: the list of children of a host is a sequence, so that its links are not modelled; those of path nodes are.
- BackingStore.Store.StoreObject: the disc never fails, memory never runs out, and a URL is the text that it is saved as.
- EntriesFile.DecodeEncodeEntry: pointers and padding in the saved structure are not modelled, since reading ignores them.
- Files of the backing store are named by the hash of the URL alone; directories, the tag and control files and the extents of block files are not modelled.
- Delivery.NotifyUsers: what a client does while it is called is an answer, a release or an abort of its own handle; releasing other handles or starting new notifications is not modelled.
- Delivery.FetchData: events come in the order that `content/fetch.h` promises; a second fetch for the same object after a failed login or a timeout is not modelled.
- CacheObjects.ObjectCache.Redirect: whether a redirect is followed is a parameter, and events to clients on the way are not modelled. Users of an object that was lost stay where they are; the source would go on with an object that is gone.
- CacheObjects.ObjectCache.RetrieveFromCache: memory never runs out.
- CacheObjects.ObjectCache.HandleRetrieve: the change of a URL by HSTS is not modelled here; whether there is a fetcher for the URL is a parameter.
- CacheCleaning.Clean: which objects are stale, and which can be written out in the time that there is, are parameters, as are the sizes of URLs, headers and certificates; what is released or invalidated in the backing store is not modelled.
- CacheObjects.NewObjectWithCandidate: the count of candidates does not wrap at 2^32.
- Metadata.ProcessMetadata: a number starts with a digit, while the source also skips white space and a sign before it; times are not negative, and base64 is any pair of functions that are inverse and of the right length; a buffer without a last NUL ends where it ends.
- Cache-control values and freshness in `content/llcache.c`: whether an object is fresh is a parameter.
- FetchHeaders.SplitHeader: when white space was taken off the front of a line, the source looks for its end beyond the line; what lies there is taken not to be white space.
- FetchScheduler.Scheduler.DispatchJob: what a fetcher does when it is started is only whether it succeeds; callbacks from it, and changes of the options, are not modelled.
- `fetcher_quit`, which forces reference counts to 1.
- HistoryClone.CloneEntry: memory never runs out; thumbnails, scroll offsets and the number of children are not modelled.
- The moves of the cursor of a history.
- FramesetLayout.Fit: rows with relative sizes and space left for them, which use floating point, are not modelled; sizes before the fitting are given, and not negative.
- Dragging frame borders, reformatting and scroll bars.
- TextSearch.FindPattern: texts are characters rather than bytes in UTF-8, and upper case is that of ASCII.
