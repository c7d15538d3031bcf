# MemoryHub: verified models

This project models the parts of MemoryHub whose correctness rests on state,
order or arithmetic that no single function shows, and proves what they promise
over every input and every run. `dafny verify dfyconfig.toml` checks it.

- **Search response assembly** (`Memory`, `Sorting`, `Compilation`,
  `ChunkExpansion`, `SearchOrdering`, `EpochRuns`, `BranchSplit`, `Packing`,
  `SearchAssembly`, `DomainBoost`). Chunks found are replaced by their parents;
  a search is backfilled from a stored compilation epoch, ordered by it,
  stripped of branches, cut to a page and packed into a token budget. The main
  result says exactly when the cached prefix of two responses is the same, down
  to the packed entries.
- **Agents** (`LeaderLease`, `WorkQueue`). The lease lock with one store command
  per step, and the work queue with any number of runners. The classes are the
  calls as the source writes them; the step machines are their interleavings.
- **Sessions and windows** (`SessionTable`, `SessionCleanup`, `RateLimit`).
  Pruned in-memory state against a full history.
- **Version chains** (`VersionChains`). The three updates of migration 027.
- **Client recovery** (`ClientSession`). Steps are the stretches between awaits.
- **Encodings and filters** (`JwkInteger`, `ScopeFilter`).

Where the code does not do what its documentation says, the model follows the
code. These are the places, each with the exact condition:

- A degraded entry loses its taint warning (`Memory.StubKeepsTaintIff`,
  `Packing.DegradedForm`).
- Expanding chunks brings back memories the filter hides
  (`ChunkExpansion.ExpansionStaysInsideIff`). They make the cached section depend
  on the query (`SearchOrdering.PrefixStableAcrossQueries`) and can invalidate
  the prefix without bound, if there are two of them
  (`EpochRuns.InvalidationsBoundedIff`).
- Filters that share an owner can invalidate each other forever
  (`EpochRuns.EverySearchInvalidatesIff`).
- Index mode can answer with full entries (`SearchOrdering.IndexModeStubsIff`),
  and its cached entries depend on the query
  (`SearchAssembly.ResponsesShareEntriesIff`).
- Backfilled entries escape the entity, source and temporal filters
  (`SearchOrdering.BackfillRespectsFilterIff`).
- The epoch number can restart (`SearchOrdering.NumberDropsIff`), and a failed
  backfill read can make the epoch forget (`SearchOrdering.VisibleIdLostIff`).
- The cached prefix can differ between queries after branch filtering
  (`BranchSplit.PagePrefixStableIff`), a branch of a branch is shown nowhere
  (`BranchSplit.EveryResultShownOnceIff`), and `appendix_count` can count hidden
  entries (`BranchSplit.AppendixCountHonestIff`).
- A late EXPIRE or DELETE acts on another holder's lock
  (`LeaderLease.SecondOwnsLeaseIff`).
- A requeued item goes to the back (`WorkQueue.FailedItemGoesLast`).
- A clock that steps back lets too many requests in, or too few
  (`RateLimit.OverAdmissionIff`).
- `set_session_id` can revive an expired binding
  (`SessionTable.AnswerIsOwnHistoryIff`), which other sessions can prevent
  (`SessionTable.OthersNeverInterfereIff`).
- A raising push can leave a session without its cleanup
  (`SessionCleanup.BoundWithoutCallbackIff`).
- A reset can close the transport another caller is registering on
  (`ClientSession.TearDownPossibleIff`).
- With an isolation flag off, search hides rows the per-memory check accepts
  (`ScopeFilter.SearchAgreesIff`).
- Zero is encoded as the empty text (`JwkInteger.FollowsRfcIff`).

Ids are integers: the order of canonical UUID strings is the order of the
128-bit integers they spell. Instants are numbers, a missing `created_at` being
the earliest. Weights, scores and clock readings are reals. The content store,
lower-casing, the length of JSON text, JSON validity and every store or push
failure are parameters, so the results hold for all of them.

## Model

| member | source | states |
|---|---|---|
| `Memory.StubKeepsTaintIff` | memory-hub-mcp/src/tools/search_memory.py:83-105 | A full item whose upstream is untrusted or mixed becomes a stub that says trusted, because the stub projection does not carry the level; so degrading keeps the taint warning if and only if the entry was a stub already or had none. Identity, parent, weight, dates, tags, provenance source and flags are kept. |
| `Compilation.ApplyCompilation` | src/memoryhub_core/services/compilation.py:111-159 | The dictionary, the epoch walk and the appendix loop compute the specified compiled section and appendix, for any hits and any epoch. |
| `Compilation.CompiledIds` | src/memoryhub_core/services/compilation.py:137-143 | The ids of the compiled section are the epoch order restricted to the ids present; nothing is invented. |
| `Compilation.AppendixIsTheRest` | src/memoryhub_core/services/compilation.py:145-158 | The appendix holds exactly the hits the epoch does not list, oldest first, ids breaking ties. |
| `Compilation.ApplyIsPartition` | src/memoryhub_core/services/compilation.py:111-159 | Compiled section and appendix together are a permutation of the results. |
| `Compilation.InCompiledIff` | src/memoryhub_core/services/compilation.py:140-143 | A hit is compiled if and only if it is among the results and its id is in the epoch. |
| `Compilation.CompileIgnoresOrderAndForm` | src/memoryhub_core/services/compilation.py:50-65 | The epoch depends only on the multiset of weights, creation times and ids: not on result order, not on scores, not on full or stub form. |
| `Compilation.CompileIsPermutation` | src/memoryhub_core/services/compilation.py:98-102 | A new epoch lists every result id, as often as it occurs. |
| `Compilation.CompileDistinct` | src/memoryhub_core/services/compilation.py:98-102 | Over distinct results the epoch is duplicate-free and lists exactly their ids. |
| `Compilation.EpochOrder` | src/memoryhub_core/services/compilation.py:59-65 | In an epoch a memory comes before another if and only if it is heavier, or as heavy and created earlier, or as heavy and as old and of the smaller id; a missing creation time counts as the earliest. |
| `Compilation.AppendixInAgeOrder` | src/memoryhub_core/services/compilation.py:151-158 | In the appendix a memory comes before another if and only if it was created earlier, or is as old and of the smaller id. |
| `Compilation.RecompileRule` | src/memoryhub_core/services/compilation.py:192-201 | The rule in counts: recompile if and only if nothing is compiled, or five memories are new, or one is new against at most three compiled, or two against four. |
| `Compilation.WarmRepeatIsStable` | src/memoryhub_core/services/compilation.py:111-201 | A second search over the same memories finds the epoch complete: every id in epoch order, no appendix, no recompilation. |
| `SearchOrdering.ApplyCacheOptimizedOrdering` | memory-hub-mcp/src/tools/search_memory.py:281-355 | For every result list, stored epoch and store failure, the response order and the epoch left in the store are the specified ones; no results means no ordering and no write. |
| `SearchOrdering.OrderByEpoch` | memory-hub-mcp/src/tools/search_memory.py:308-338 | With an epoch present: it stands, or is replaced by the next one, which is persisted only if the write succeeds. |
| `SearchOrdering.OrderingIsPermutation` | memory-hub-mcp/src/tools/search_memory.py:281-355 | Whatever the stored epoch, ordering returns each result exactly once. |
| `SearchOrdering.RankSortedIsEpochOrder` | memory-hub-mcp/src/tools/search_memory.py:320-322 | Sorting by position in the new epoch yields exactly the epoch order. |
| `SearchOrdering.ColdThenWarm` | memory-hub-mcp/src/tools/search_memory.py:308-355 | A cold search and an immediate warm repeat answer with the same ids in the same order, the same epoch number and no appendix. |
| `SearchOrdering.ColdOrder` | memory-hub-mcp/src/tools/search_memory.py:340-355 | A cold search answers heaviest first, then oldest, then by id, exactly. |
| `SearchOrdering.RecompiledOrder` | memory-hub-mcp/src/tools/search_memory.py:311-328 | A search that recompiles answers in the order of a cold one. |
| `SearchOrdering.LoadedRow` | memory-hub-mcp/src/tools/search_memory.py:472-499 | A row is loaded full exactly when its weight reaches the threshold, with its own text and tags; a stub carries neither. |
| `SearchOrdering.BackfillCompiledEntries` | memory-hub-mcp/src/tools/search_memory.py:358-504 | The results come back unchanged when the store is unreachable, empty, or the caller may see nothing; otherwise exactly the visible epoch ids missing from them are appended, once each, full or stub by weight, with score 0. |
| `SearchOrdering.SelectRows` | memory-hub-mcp/src/tools/search_memory.py:447-455 | The filtered select returns each wanted visible row once. |
| `SearchOrdering.BackfilledIds` | memory-hub-mcp/src/tools/search_memory.py:358-504 | After backfill the results are still distinct, and an epoch id is present if and only if the filter admits it or the search returned it. |
| `SearchOrdering.CompiledSectionIs` | memory-hub-mcp/src/tools/search_memory.py:308-338 | The compiled section is, in epoch order, what the filter admits or the search returned. It is the visible part of the epoch, whatever was searched, if and only if no hit is an epoch memory the filter hides. |
| `SearchOrdering.PrefixStableAcrossQueries` | memory-hub-mcp/src/tools/search_memory.py:329-338 | Two searches with any hits and thresholds and the same filter, while the epoch stands, show the same cached section if and only if they returned the same epoch memories among those the filter hides; they always number the same epoch. |
| `SearchOrdering.HiddenHitShiftsSection` | src/memoryhub_core/services/memory.py:1045-1063 | It happens: with one compiled memory the filter hides, a search that reaches it and one that does not show different sections, and neither recompiles. |
| `SearchOrdering.RecompileKeepsVisible` | memory-hub-mcp/src/tools/search_memory.py:311-328 | After a working backfill, a recompilation leaves no appendix, raises the number by one, loses no visible id of the old epoch, and stores exactly the ids it answers with, in that order. |
| `SearchOrdering.VisibleIdLostIff` | memory-hub-mcp/src/tools/search_memory.py:401-404 | The backfill and the ordering read the store separately. The stored epoch forgets a visible memory if and only if the backfill's read failed, the search missed such a memory, and the ordering replaced the epoch and could write it. |
| `SearchOrdering.FailedBackfillForgets` | memory-hub-mcp/src/tools/search_memory.py:401-404 | It happens: one hit outside the epoch after a failed first read and a good second one. |
| `SearchOrdering.NumberDropsIff` | memory-hub-mcp/src/tools/search_memory.py:302-306 | The stored epoch number goes backwards if and only if the read failed, the write succeeded, and the number was above 1. |
| `SearchOrdering.BackfillRespectsFilterIff` | memory-hub-mcp/src/tools/search_memory.py:411-421 | The backfill applies no entity, source or temporal filter. Every result passes the whole filter of the search if and only if every hit does and every visible epoch memory does. |
| `SearchOrdering.BackfillBringsUnwanted` | memory-hub-mcp/src/tools/search_memory.py:411-421 | A search whose only hit passes the whole filter answers with an epoch memory that does not. |
| `SearchOrdering.IndexModeStubsIff` | memory-hub-mcp/src/tools/search_memory.py:1227-1254 | In index mode the response is all stubs if and only if every row loaded back is lighter than the threshold, since stubbing runs before the backfill. |
| `SearchOrdering.IndexModeAnswersFull` | memory-hub-mcp/src/tools/search_memory.py:1227-1254 | One heavy compiled memory that the search missed is enough for a full entry in index mode. |
| `ChunkExpansion.ExpandChunks` | src/memoryhub_core/services/memory.py:1030-1082 | Without a chunk among the rows nothing changes; otherwise the result is the dictionary of best scores, stably sorted by score. |
| `ChunkExpansion.BestIsBest` | src/memoryhub_core/services/memory.py:1065-1082 | Expansion keeps exactly one entry for every memory some row stands for, with the best of their scores. |
| `ChunkExpansion.OnlyChunksReplaced` | src/memoryhub_core/services/memory.py:1065-1076 | A row stands for its parent exactly when its branch type is chunk and it has one; a chunk of a deleted memory stands for nothing. |
| `ChunkExpansion.ExpandedDescends` | src/memoryhub_core/services/memory.py:1081-1082 | The expanded list is a permutation of the best entries in descending order of score. |
| `ChunkExpansion.ExpansionStaysInsideIff` | src/memoryhub_core/services/memory.py:1045-1063 | When every row found passes the filter, every memory returned passes it if and only if the parent of each chunk found does: the parent is loaded by id alone. |
| `ChunkExpansion.HiddenParentReturns` | src/memoryhub_core/services/memory.py:1045-1063 | One active chunk brings back a memory the filter hides, with the score of the chunk. |
| `EpochRuns.BackfillIsLegal` | memory-hub-mcp/src/tools/search_memory.py:1241-1254 | Every backfilled search of distinct memories, hidden ones included, meets the hypotheses of the run theorems below. |
| `EpochRuns.InvalidationNeedsNews` | src/memoryhub_core/services/compilation.py:192-201 | A recompilation happens only when the response holds an id the epoch lacks. |
| `EpochRuns.InvalidationsBounded` | memory-hub-mcp/src/tools/search_memory.py:308-328 | Over any run of searches with one filter on unchanged data, no visible id ever leaves the epoch; and if no search returns a memory the filter hides, the prefix is thrown away at most once per visible memory the epoch does not list yet. |
| `EpochRuns.OneHiddenBounded` | memory-hub-mcp/src/tools/search_memory.py:308-328 | With one hidden memory in reach, there are at most two invalidations per visible memory the epoch does not list, and one more if it does not list the hidden one. |
| `EpochRuns.InvalidationsBoundedIff` | memory-hub-mcp/src/tools/search_memory.py:308-328 | The exact condition: over all legal runs whose searches return visible memories and some hidden ones, the number of invalidations is bounded if and only if at most one hidden memory can be returned. |
| `EpochRuns.HiddenHitsThrash` | memory-hub-mcp/src/tools/search_memory.py:308-328 | With one filter and any database, two hidden memories invalidate the prefix on every search of a legal run of any length, each search being its one hit and what the backfill adds to it. |
| `EpochRuns.NumberCountsInvalidations` | memory-hub-mcp/src/tools/search_memory.py:311-312 | Along any run the epoch number rises by exactly the number of invalidations. |
| `EpochRuns.RecompilesByCounts` | src/memoryhub_core/services/compilation.py:192-201 | Whether a search recompiles an epoch depends only on how many of its memories the epoch lists and how many it does not. |
| `EpochRuns.AlternationCount` | memory-hub-mcp/src/tools/search_memory.py:300-328 | Two result sets take turns on one epoch: every search invalidates it if each set displaces the other, and otherwise at most the first does. |
| `EpochRuns.EverySearchInvalidatesIff` | memory-hub-mcp/src/tools/search_memory.py:300-328 | The epoch is keyed by tenant and owner, not by filter. Two arbitrary result sets taking turns invalidate the prefix on every search if and only if the memories they share and the memories only one of them has call for a recompilation, in both directions. |
| `EpochRuns.FiltersThrash` | memory-hub-mcp/src/tools/search_memory.py:300-328 | Two filters that admit one memory each are such a pair, and each search is legal for its own filter. |
| `BranchSplit.SplitBranches` | memory-hub-mcp/src/tools/search_memory.py:1270-1286 | One pass separates top-level results from branches of present parents, in result order, and files the branches under their parents, or nowhere when nesting is off. |
| `BranchSplit.SplitByParent` | memory-hub-mcp/src/tools/search_memory.py:1279-1286 | A result is at top level if and only if its parent is not among the results, and nested under a memory if and only if that is its parent. |
| `BranchSplit.FilterAndClamp` | memory-hub-mcp/src/tools/search_memory.py:1290-1315 | The ordered results lose their branches and are cut to at most max_results; only when cut, appendix_count is recounted and nested branches of clipped parents are dropped. |
| `BranchSplit.EveryResultShownOnceIff` | memory-hub-mcp/src/tools/search_memory.py:1270-1286 | With nesting on and no clamp, every result is shown exactly once, top-level or under its parent, if and only if no result is a branch of a branch; such a result is shown nowhere. |
| `BranchSplit.GrandchildVanishes` | memory-hub-mcp/src/tools/search_memory.py:1276-1286 | A result whose parent and grandparent are among the results is not shown. |
| `BranchSplit.ThreeGenerations` | memory-hub-mcp/src/tools/search_memory.py:1276-1286 | Three such results in a row are an input on which it happens. |
| `BranchSplit.CachedTopLevelIsPermutation` | memory-hub-mcp/src/tools/search_memory.py:1290-1296 | The cached top level holds the same results as the raw one. |
| `BranchSplit.AppendixCountHonestIff` | memory-hub-mcp/src/tools/search_memory.py:1303-1310 | Without a clamp, appendix_count equals the number of flagged entries shown if and only if no appendix result is a filtered branch. |
| `BranchSplit.HiddenAppendixCounted` | memory-hub-mcp/src/tools/search_memory.py:1303-1310 | With four compiled memories or more and one new branch of a result, the count is wrong, for every such input. |
| `BranchSplit.OrderingCountsFlags` | memory-hub-mcp/src/tools/search_memory.py:329-338 | The ordering reports as many appendix entries as it flags. |
| `BranchSplit.PagePrefixStableIff` | memory-hub-mcp/src/tools/search_memory.py:1270-1296 | After branch filtering, two searches show the same cached prefix if and only if they agree on each epoch memory: whether it is in the results, through the filter or a hit, and its parent is not. |
| `BranchSplit.PagePrefixDiffers` | memory-hub-mcp/src/tools/search_memory.py:1270-1296 | With four compiled memories, one of them a branch of an uncompiled memory, two one-hit searches that trigger no recompilation show different prefixes. |
| `Packing.HydrateFullEntry` | memory-hub-mcp/src/tools/search_memory.py:1349-1373 | A full entry comes out with the fetched text and both truncation flags off when it is stored under a key and the fetch succeeds, and otherwise as it was, every other field included; so does each of its branches. A stub entry and its branches stay as they are. |
| `Packing.PackEntry` | memory-hub-mcp/src/tools/search_memory.py:1400-1435 | Full or stub, the remaining budget, exhaustion, and whether a fetch was attempted, in every case of the decision. |
| `Packing.PackResponse` | memory-hub-mcp/src/tools/search_memory.py:1375-1464 | One entry per item in order, with one cut. Before it every entry is delivered as HydrateFullEntry says, from it on every entry is a stub. Nothing is fetched after the cut, and the entry at the cut is fetched only if its truncated form fitted. `budget` ends as the cap less the hydrated entries, which it covers, and less the stubs as far as it goes; with the budget disabled nothing is degraded. |
| `Packing.KeptEntriesAreDelivered` | memory-hub-mcp/src/tools/search_memory.py:1333-1347 | So the text of every entry the budget keeps is the stored one, or its own when it is not stored or the fetch fails; without a content store nothing changes. |
| `Packing.CutIsUnique` | memory-hub-mcp/src/tools/search_memory.py:1400-1435 | There is only one place where all earlier entries fit and the next does not. |
| `Packing.PackedPrefix` | memory-hub-mcp/src/tools/search_memory.py:1375-1464 | Packing never looks ahead: how the first n entries are packed does not depend on the rest. |
| `Packing.UndegradedWithinBudget` | memory-hub-mcp/src/tools/search_memory.py:155-157 | The undegraded entries cost at most max_response_tokens and hold at most 7 x max_response_tokens serialized characters. |
| `Packing.CostIs` | memory-hub-mcp/src/tools/search_memory.py:155-157 | The estimate is a quarter of the characters, rounded down, and at least one. |
| `Packing.CutIsLargestFit` | memory-hub-mcp/src/tools/search_memory.py:1400-1435 | Without a content store, exactly as many entries are kept as fit the cap together. |
| `Packing.LargerCapCutsLater` | memory-hub-mcp/src/tools/search_memory.py:1375-1464 | A larger cap never degrades an entry a smaller cap kept. |
| `Packing.StubOfHydrated` | memory-hub-mcp/src/tools/search_memory.py:1388-1398 | Degrading after hydration gives the same stub as degrading before it, branches included. |
| `Packing.DegradedForm` | memory-hub-mcp/src/tools/search_memory.py:1388-1398 | A degraded entry and all its branches are stubs with the identities and scores of the originals; a tainted entry still shows its warning if and only if it was a stub to begin with. |
| `SearchAssembly.Assemble` | memory-hub-mcp/src/tools/search_memory.py:1235-1464 | Backfill, ordering, branch split, clamp and packing end to end: the packed entries, their ids, the epoch number, the appendix count and the stored epoch, whichever of the two reads and the write fail. |
| `SearchAssembly.CutPage` | memory-hub-mcp/src/tools/search_memory.py:1270-1315 | The page and its count, with each kept entry's branches in result order, or none when nesting is off. |
| `SearchAssembly.PackPage` | memory-hub-mcp/src/tools/search_memory.py:1437-1449 | Packing the page changes the form of entries, never which memories are shown or in what order. |
| `SearchAssembly.OrderedIsResults` | memory-hub-mcp/src/tools/search_memory.py:281-355 | Every ordered entry is one of the results, even if ids repeat. |
| `SearchAssembly.ResponseOpensWithPrefix` | memory-hub-mcp/src/tools/search_memory.py:1290-1310 | A response opens with the cached prefix of its result set, as far as the page reaches, none of it flagged as appendix. |
| `SearchAssembly.ResponsesShareEntriesIff` | memory-hub-mcp/src/tools/search_memory.py:1235-1464 | Two searches with the same filter, threshold, mode, token budget and content store, any queries and page sizes, while the epoch stands: entries that both pages take from their cached prefix are identical, at every budget, if and only if each shows the same memory and the same branches in the same order, and each of these is full in both responses or in neither, full meaning heavy, not hit by an index-mode search, and before the cut. |
| `SearchAssembly.AgreementSurvivesPacking` | memory-hub-mcp/src/tools/search_memory.py:1375-1464 | Entries that agree in this before packing are packed alike at every budget, whatever follows them. |
| `SearchAssembly.PackedEqualIff` | memory-hub-mcp/src/tools/search_memory.py:242-278 | Packed entries built from database rows are equal if and only if their ids and forms before packing, with every form a stub from the cut on, are equal; branch scores do not enter. |
| `SearchAssembly.IndexEntriesDiffer` | memory-hub-mcp/src/tools/search_memory.py:1229-1254 | In index mode a heavy compiled memory is a stub for the query that hit it and full for the query that did not. |
| `SearchAssembly.BranchOrderFollowsQuery` | memory-hub-mcp/src/tools/search_memory.py:1276-1286 | Two searches of an epoch of one memory and two branches, which hit all three and rank the branches differently, answer with different first entries. |
| `DomainBoost.ApplyDomainBoost` | memory-hub-mcp/src/tools/search_memory.py:108-131 | The loop and stable sort compute the specified boosted order. |
| `DomainBoost.BoostBounds` | memory-hub-mcp/src/tools/search_memory.py:120-129 | For a score in [0,1]: score <= boosted <= min(1, 1.3 x score), and an unmatched result keeps its score. |
| `DomainBoost.BoostKeepsEverything` | memory-hub-mcp/src/tools/search_memory.py:120-131 | Boosting is a permutation in descending order of boosted score. |
| `DomainBoost.BoostByMatches` | memory-hub-mcp/src/tools/search_memory.py:108-129 | No matching tag leaves the score, one multiplies it by 1.15 and two or more by 1.3, capped at 1; tags are compared in lower case and count once. |
| `DomainBoost.SameBoostKeepsOrder` | memory-hub-mcp/src/tools/search_memory.py:120-131 | From a descending list, results with the same boost never change relative order, even when the cap at 1.0 ties them. |
| `LeaderLease.LeaderElection.TryAcquire` | memoryhub-agents/src/memoryhub_agents/leader.py:41-60 | Uninterrupted, it succeeds exactly when there is no lock, or it has lapsed, or it is the caller's, and then holds it for a full ttl; otherwise nothing changes. |
| `LeaderLease.LeaderElection.Heartbeat` | memoryhub-agents/src/memoryhub_agents/leader.py:62-76 | Uninterrupted, it succeeds exactly when the remembered holder still holds the lock, which it renews; otherwise the holder is forgotten and the store untouched. |
| `LeaderLease.LeaderElection.Release` | memoryhub-agents/src/memoryhub_agents/leader.py:78-85 | Uninterrupted, it frees the lock only if it is the caller's own, and always forgets the holder. |
| `LeaderLease.LeaseSafety` | memoryhub-agents/src/memoryhub_agents/leader.py:41-85 | Over every interleaving of single store commands by any number of instances, with timely second commands: once a call of x has succeeded at t, and x does not release, no acquire or heartbeat of another instance succeeds before t + ttl. |
| `LeaderLease.TakenIff` | memoryhub-agents/src/memoryhub_agents/leader.py:47-53 | A first SET succeeds if and only if the lock was never set, was deleted, or has lapsed. |
| `LeaderLease.TakeoverAfterLapse` | memoryhub-agents/src/memoryhub_agents/leader.py:47-53 | No lock outlives its holder: once as much time has passed as the lease had left, any idle instance that asks becomes leader for its own ttl. |
| `LeaderLease.ReleaseDeletesOwnLock` | memoryhub-agents/src/memoryhub_agents/leader.py:78-85 | A timely release deletes its own lock and nobody else's. |
| `LeaderLease.SecondOwnsLeaseIff` | memoryhub-agents/src/memoryhub_agents/leader.py:54-83 | The EXPIRE or DELETE after a GET finds its own lease in the store if and only if it runs before the lease that GET saw lapses. |
| `LeaderLease.ReportedSuccessIsTrueIff` | memoryhub-agents/src/memoryhub_agents/leader.py:54-76 | A re-entrant acquire or heartbeat that reports success really holds the lock if and only if its EXPIRE was timely. |
| `LeaderLease.TwoLeadersWhenLate` | memoryhub-agents/src/memoryhub_agents/leader.py:62-76 | For every ttl, a six-step run with one late EXPIRE leaves two instances with a promised lease at once. |
| `LeaderLease.UninterruptedAcquire` | memoryhub-agents/src/memoryhub_agents/leader.py:41-60 | Three consecutive steps of the machine are one try_acquire call as the class runs it. |
| `LeaderLease.UninterruptedHeartbeat` | memoryhub-agents/src/memoryhub_agents/leader.py:62-76 | Three consecutive steps of the machine are one heartbeat call as the class runs it. |
| `LeaderLease.UninterruptedRelease` | memoryhub-agents/src/memoryhub_agents/leader.py:78-85 | Three consecutive steps of the machine are one release call as the class runs it. |
| `WorkQueue.AgentQueue.Dequeue` | memoryhub-agents/src/memoryhub_agents/queue.py:58-73 | The oldest text is removed, before decoding can fail; an empty queue is a timeout. |
| `WorkQueue.AgentRunner.Handle` | memoryhub-agents/src/memoryhub_agents/lifecycle.py:105-115 | A timeout does nothing, undecodable text escapes the loop, a failure pushes the original text back, a success removes it for good. |
| `WorkQueue.AgentRunner.TakeTurn` | memoryhub-agents/src/memoryhub_agents/lifecycle.py:100-115 | The exact queue, finished item and lost item after one pass of the loop. |
| `WorkQueue.AgentRunner.Loop` | memoryhub-agents/src/memoryhub_agents/lifecycle.py:98-115 | After any script of arrivals, outcomes and signals, the queue, the finished items in order, the lost text and the turns taken are those of taking turn after turn until a signal or undecodable text; everything queued or arrived is queued, done or lost. |
| `WorkQueue.LoopDrains` | memoryhub-agents/src/memoryhub_agents/lifecycle.py:98-115 | Left alone for as many turns as there are items, the loop finishes all of them, oldest first. |
| `WorkQueue.TurnIsRun` | memoryhub-agents/src/memoryhub_agents/lifecycle.py:98-115 | One pass of the loop is a run of the many-runner machine: same queue, same processed items, stopped exactly by undecodable text. |
| `WorkQueue.StepsDoWork` | memoryhub-agents/src/memoryhub_agents/lifecycle.py:100-115 | In the machine a poll of a running runner takes the oldest text, success accounts for it, failure puts it behind everything. |
| `WorkQueue.Conservation` | memoryhub-agents/src/memoryhub_agents/lifecycle.py:98-115 | For any number of runners and any interleaving with crashes and signals: enqueued texts equal queued plus in flight plus processed plus lost, as multisets. |
| `WorkQueue.NothingLostIff` | memoryhub-agents/src/memoryhub_agents/lifecycle.py:98-128 | Nothing is lost if and only if no runner pops undecodable text and none dies holding an item. |
| `WorkQueue.OrderLaw` | memoryhub-agents/src/memoryhub_agents/queue.py:58-83 | What was popped followed by what is queued equals the initial queue followed by everything pushed, requeues included, in order. |
| `WorkQueue.BoundedWait` | memoryhub-agents/src/memoryhub_agents/queue.py:58-83 | An item with k items ahead of it is the (k+1)-th popped from now, whatever is enqueued, requeued, failed or crashed meanwhile. |
| `WorkQueue.FailedItemGoesLast` | memoryhub-agents/src/memoryhub_agents/queue.py:80-83 | A requeued item is popped after everything then waiting, in order; the class comment's "head" (lines 32-34) is not what LPUSH with BRPOP does. |
| `RateLimit.RateLimiter.CheckRateLimit` | ops/triage/server.py:49-64 | One request: the pruning loop, the decision and the new deque, for any clock. |
| `RateLimit.RateLimiter.ServeAll` | ops/triage/server.py:49-64 | A whole sequence of requests accepts exactly the specified times and leaves the specified deque, for any clock. |
| `RateLimit.ServeIsHistoryServe` | ops/triage/server.py:49-64 | With a nondecreasing clock every decision on the pruned deque equals "fewer than the limit accepted in the last 60 seconds" on the full history. |
| `RateLimit.AcceptsIff` | ops/triage/server.py:49-64 | With a nondecreasing clock a request is accepted if and only if fewer than the limit were accepted in the 60 seconds up to it. |
| `RateLimit.NoWindowExceedsLimit` | ops/triage/server.py:49-64 | With a nondecreasing clock every closed 60-second interval, wherever it starts, contains at most the limit of accepted requests. |
| `RateLimit.DequeIsSuffix` | ops/triage/server.py:49-64 | For any clock the deque is what is left of the accepted list once the popped requests are gone. |
| `RateLimit.OverAdmissionIff` | ops/triage/server.py:49-64 | For any clock, a request is admitted against the full history if and only if the deque keeps fewer than the limit while kept requests in the window and popped ones that are in it again reach the limit. That takes an earlier reading later than now, over a window ahead of a request that counts again; and a request is refused against the history, dually, only after one was accepted at an earlier reading than one before it. |
| `RateLimit.RewoundClockExceedsLimit` | ops/triage/server.py:49-64 | With a clock that steps back, a limit of 2 lets three requests through in one instant. |
| `SessionTable.Sessions.PruneExpired` | memory-hub-mcp/src/tools/auth.py:382-392 | Exactly the expired bindings of other transport sessions are removed. |
| `SessionTable.Sessions.SetSession` | memory-hub-mcp/src/tools/auth.py:339-379 | Binds the user for ttl and prunes; reports the expiry. |
| `SessionTable.Sessions.GetCurrentUser` | memory-hub-mcp/src/tools/auth.py:467-480 | Answers with the bound user exactly when there is one and it has not expired, and renews it only then. |
| `SessionTable.Sessions.RefreshSessionMetadata` | memory-hub-mcp/src/tools/auth.py:410-421 | Renews an unexpired binding, never an expired one. |
| `SessionTable.Sessions.IsSessionExpired` | memory-hub-mcp/src/tools/auth.py:431-437 | True exactly for a missing or expired binding; renews nothing. |
| `SessionTable.Sessions.SetSessionId` | memory-hub-mcp/src/tools/auth.py:292-323 | Creates or renews the binding without looking at its expiry. |
| `SessionTable.Sessions.SetDefaultDriverId` | memory-hub-mcp/src/tools/auth.py:521-548 | Creates a binding if there is none, and never renews one. |
| `SessionTable.AnswerIsOwnHistoryIff` | memory-hub-mcp/src/tools/auth.py:339-480 | For every run of all these calls and clock ticks over any number of sessions, get_current_user always answers with the session's own last-bound user exactly while less than its ttl has passed since its last activity, if and only if no set_session_id call of that session with a positive ttl finds an expired, unpruned binding of a user. |
| `SessionTable.NeverAnotherUser` | memory-hub-mcp/src/tools/auth.py:339-480 | On every run, such calls included, a live session is answered, and no answer is anyone but the user this session last bound and has not cleared. |
| `SessionTable.OthersNeverInterfereIff` | memory-hub-mcp/src/tools/auth.py:382-392 | On every run, removing every event of every other session changes no answer this session gets along the way, if and only if no set_session_id call of the session with a positive ttl would have revived an expired binding and finds no user, because another session's call pruned it. |
| `SessionTable.NoteKeepsAnswerIff` | memory-hub-mcp/src/tools/auth.py:310-322 | A set_session_id call keeps the answer the history calls for if and only if it does not find an expired, unpruned binding of a user with a positive ttl. |
| `SessionTable.PruningDecidesRevival` | memory-hub-mcp/src/tools/auth.py:310-322 | Such a call brings the expired user back, unless any other session's call pruned the binding first. |
| `SessionCleanup.MarkerMeansOnePending` | memory-hub-mcp/src/tools/auth.py:221-268 | For every interleaving of setters, raising pushes and cleanups, at most one callback is pending, and once no setter is mid-way the marker is set exactly when one is. |
| `SessionCleanup.CleanupClearsAll` | memory-hub-mcp/src/tools/auth.py:250-257 | When the callback runs, binding, marker and pending callback are all gone. |
| `SessionCleanup.BoundWithoutCallbackIff` | memory-hub-mcp/src/tools/auth.py:259-268 | Once no setter is under way, a bound session has no callback to clean it up if and only if a push has raised and since then no setter set the marker and no callback ran. |
| `SessionCleanup.SkippedPushStrands` | memory-hub-mcp/src/tools/auth.py:239-268 | A setter that skips its push for another one's sake is stranded when that one's push raises, although its own call succeeded. |
| `ClientSession.RecoverySafety` | integrations/opencode/src/session.ts:30-73 | For any number of callers and any interleaving: generation counts the resets and never exceeds the number of callers, no value of it is claimed twice, at most one registration is in flight, and fn runs at most twice per caller. |
| `ClientSession.EveryAuthErrorIsRetried` | integrations/opencode/src/session.ts:57-73 | On every run a finished caller is told success exactly if its last call of fn returned. It called fn twice exactly if the first call gave an auth error, from whatever generation, and no registration it awaited failed; once only if fn returned, threw another error, or the registration awaited afterwards failed; never only if the first registration failed. |
| `ClientSession.ResetsOwnTransport` | integrations/opencode/src/session.ts:59-69 | On every run a caller only resets the transport its own first call of fn failed on, and after a first auth error that transport is gone. |
| `ClientSession.EveryoneFinishes` | integrations/opencode/src/session.ts:38-73 | Every run has at most 11 n steps, and until all n callers are done some step is enabled. |
| `ClientSession.TearDownNeedsStaleWait` | integrations/opencode/src/session.ts:57-73 | In every run, a caller whose wait settled in the current generation resets a registered session with nothing in flight; a reset that closes the transport of a register call in flight comes from a caller whose wait had settled before an earlier reset. |
| `ClientSession.TearDownPossibleIff` | integrations/opencode/src/session.ts:32-36 | The generation check does not rule that out, contrary to its comment: some run has such a reset if and only if there are at least two callers. |
| `ClientSession.ResetHitsFreshTransport` | integrations/opencode/src/session.ts:57-73 | The nine-step run, for any number of callers from two on: caller 1 resumes before the new connection carries the register call, and its reset closes that connection. |
| `VersionChains.EndsIff` | alembic/versions/027_add_logical_id.py:33-42 | The recursive query ends if and only if no current row leads into a cycle; a chain that ends does so within the size of the table. |
| `VersionChains.MemoryNodes.Chain` | alembic/versions/027_add_logical_id.py:33-42 | The level-by-level recursion returns exactly the pairs of a row and a current row whose chain passes through it; it holds each current row with itself and is closed under the stored predecessor. |
| `VersionChains.HeadsAre` | alembic/versions/027_add_logical_id.py:35-41 | On the stored field: the heads of a row are itself when current, and the heads of every row whose previous_version_id it is; no others. |
| `VersionChains.MemoryNodes.UpdateFromChain` | alembic/versions/027_add_logical_id.py:42-43 | Each reached row takes the head of one matching pair; other rows keep their value. |
| `VersionChains.MemoryNodes.Upgrade` | alembic/versions/027_add_logical_id.py:23-47 | The three updates leave no null: a reached row gets one of its heads, a headless row its own id. On unforked chains every row has the logical id of the row that names it as predecessor, if that one has a head, and its very id if that one is current. |
| `VersionChains.SuccessorSharesLogicalId` | alembic/versions/027_add_logical_id.py:33-44 | The same of every backfill the updates may leave, on the stored field. |
| `VersionChains.HeadIsUnique` | alembic/versions/027_add_logical_id.py:29-47 | On unforked chains whose superseded rows are not current, every row has at most one head. |
| `VersionChains.LogicalIdsPartition` | alembic/versions/027_add_logical_id.py:29-47 | Logical ids are equal if and only if the rows are the same or share a head. |
| `VersionChains.ResolveFindsTheHead` | memory-hub-mcp/src/tools/read_memory.py:152-169 | resolve_current finds exactly one row for any version of a live chain, its head, and none for a headless row. |
| `VersionChains.OutcomeDeterminedIff` | alembic/versions/027_add_logical_id.py:42-43 | On arbitrary tables the backfill has one possible outcome if and only if no row is reached by two heads. |
| `JwkInteger.JwkIntegerRoundTrip` | memoryhub-auth/src/keys.py:116-120 | For every n >= 1 the text has no padding, decodes to n, its first octet is not zero, and no shorter octet string spells n. |
| `JwkInteger.JwkIntegerInjective` | memoryhub-auth/src/keys.py:116-120 | Distinct integers have distinct texts. |
| `JwkInteger.StripRemovesExactlyPadding` | memoryhub-auth/src/keys.py:120 | Stripping equals signs removes the padding and nothing else, for every octet string. |
| `JwkInteger.TextIsUnique` | memoryhub-auth/src/keys.py:116-120 | Every octet sequence has one base64url text only. |
| `JwkInteger.FollowsRfcIff` | memoryhub-auth/src/keys.py:116-120 | Against a specification by decoding alone (non-empty, shortest, the right integer), the text conforms to section 2 of RFC 7518 if and only if n is not zero, and for every other n it is the only text that does. |
| `JwkInteger.ZeroInTheRfc` | memoryhub-auth/src/keys.py:116-120 | The only conforming text of zero is "AA", where the code gives the empty text. |
| `JwkInteger.AlphabetIs` | memoryhub-auth/src/keys.py:120 | The alphabet is that of table 2 in section 5 of RFC 4648, and its decoding inverts it. |
| `JwkInteger.PublicExponent` | memoryhub-auth/src/keys.py:116-120 | The exponent 65537 is encoded as "AQAB". |
| `ScopeFilter.BuildAuthorizedScopes` | memory-hub-mcp/src/core/authz.py:260-299 | A tier is in the result if and only if it is a known one, granted by its own read scope or the blanket one, and not the project tier under isolation for a caller without memberships; user rows are limited to the caller, isolated project rows to the memberships, other tiers to nothing. |
| `ScopeFilter.ReadNeedsGrant` | memory-hub-mcp/src/core/authz.py:163-169 | Neither authorize_read nor the search filter admits a memory without a read scope for its tier or the blanket one; without any read scope nothing is read and no tier is searched. |
| `ScopeFilter.ReadRules` | memory-hub-mcp/src/core/authz.py:147-194 | Who reads what, tier by tier, on the claims and the memory. |
| `ScopeFilter.WriteRules` | memory-hub-mcp/src/core/authz.py:197-257 | Who writes what, tier by tier: nobody the enterprise tier, only services the organizational and role tiers and the user memories of others. |
| `ScopeFilter.WriteWithoutReadIff` | memory-hub-mcp/src/core/authz.py:147-257 | Given a read scope, in one's own tenant, what one may write one may read, except for a service: user memories of others, and isolated projects it is not a member of. |
| `ScopeFilter.ThreadReadRules` | memory-hub-mcp/src/core/authz.py:344-389 | Who reads a thread: owner and participants without any scope, others by thread scope and tier. |
| `ScopeFilter.ThreadWriteRules` | memory-hub-mcp/src/core/authz.py:392-444 | Who writes a thread: the owner, whoever the access list says, other participants, and others by thread scope, tier and service identity. |
| `ScopeFilter.SearchFilterIsAuthorizeRead` | src/memoryhub_core/services/memory.py:855-918 | In the caller's tenant, for every setting of the two isolation flags, the search filter admits exactly the memories authorize_read accepts, minus granted project and role rows whose isolation flag is off. |
| `ScopeFilter.SearchAgreesIff` | memory-hub-mcp/src/core/authz.py:147-194 | Filter and per-memory check agree on a memory of the caller's tenant if and only if it is not such a row. |
| `ScopeFilter.OpenProjectIsUnsearchable` | memory-hub-mcp/src/core/authz.py:147-194 | With project isolation off, a caller who may read the project tier can read every such memory and find none of them by searching. |
| `ScopeFilter.NormalizeSessionScopes` | memory-hub-mcp/src/core/authz.py:40-50 | A tier's four grants are present if and only if the tier is listed, and the four blanket ones if and only if all six tiers are. |
| `ScopeFilter.TierGrantsExactly` | memory-hub-mcp/src/core/authz.py:40-50 | A grant is present if and only if it names one of the caller's tiers. |
| `ScopeFilter.BlanketChangesNothing` | memory-hub-mcp/src/core/authz.py:147-257 | For a caller with every tier the blanket grants change no read, write, thread or search decision. |

## Left out

- Ranking, embeddings, the reranker, graph traversal and the choice of retrieval unit: the hits of a search are arbitrary distinct rows of the database, which need not pass the filter.
- The JSON text of entries: only its length matters, as an arbitrary function; the raw-results path shares the packing loop and differs in its tag.
- The SQL filters other than tenant and scope (owner, status, current, content type, entity, source, temporal): one arbitrary predicate on rows.
- The compilation hash, a function of the epoch ids, and the wire form of the stored epoch with its expiry.
- Concurrent epoch writers: the read, order and write of one search is one step.
- Rounding: scores, weights and clocks are reals, so the 0.3 ratio and the boost cap are exact.
- The sort built into the host language: its contract (a permutation, ordered, stable) is modelled by an insertion sort.
- Queue timeouts, configuration, plugin hooks, setup and teardown of agents; `close` and `queue_length`.
- An empty holder id, which the source treats as no holder; the class methods of LeaderElection are uninterrupted and the step machine covers interleavings.
- WorkQueue.AgentRunner.Loop: states conservation only, because the exact queue of each pass is the contract of TakeTurn and order is proved on the machine it refines.
- The legacy process-global session, user files, remote key validation, and the copying of user records on the way in and out.
- The answers of `get_session_expiry`, `get_session_id` and `get_default_driver_id`, which only read the binding.
- Session objects that disallow attributes, which cannot deduplicate cleanup callbacks, and sessions without an exit stack.
- Interleavings inside one session-table call: each call is one step, while the source takes its lock separately for pruning, reading and extending, so another thread can prune a state between the read and the extension.
- A client without an API key; connecting is part of registering; a register call pending on a closed transport may settle either way; the settling of a registration and the clearing of `inflight` are one step.
- Migration 027 is applied to one fixed table; adding the column, the not-null constraint and the index are not modelled, nor are tenants and deletion marks in `resolve_current`.
- A negative integer in `_int_to_base64url`, which the source cannot encode; key generation, PEM files and key ids.
- Cross-tenant search through authorized tenants, thread administration, and the derivation of claims from tokens.
- Action dispatch, benchmarks, command-line scripts, the UI and schema-only migrations, which forward calls or hold data.
