# Cache simulator core, in Dafny

This project models the cache model of a trace-driven, set-associative cache
simulator (`cache.c`). The simulator feeds it one reference at a time: a
32-bit address and an access type (0 data load, 1 data store, 2 instruction
fetch). At the end it flushes the caches.

The caches are unified or split into an instruction cache and a data cache.
Each cache is an array of sets. Each set is a list of lines (a tag and a
dirty bit), most recently used first. An occupancy counter per set records
how many lines the set holds. Two statistics records count accesses, misses,
replacements, words fetched on demand and words copied back, one for the
instruction stream and one for the data stream.

The model follows the program's structure:

- `Bits`: exact integer versions of the bit arithmetic the program does on 32-bit integers. These are powers of two, the floor and ceiling base-2 logarithms, bitwise AND, and the 32-bit complement.
- `Config`: the configuration variables and `set_cache_param`, as a class whose fields are updated in place.
- `Geometry`: `init_cache_helper` (the set count, the offset bits and the index mask) and the address decoder of `fetchInfo`.
- `LruList`: one set's doubly linked LRU list, as the sequence of its lines from head to tail. It holds `insert`, `delete` and the scan for a tag.
- `Access`: what each classifier (`calcDataLoadRefs`, `calcInsLoadRefs`, `calcDataStoreRefs`) does to the set it touches, as functions of the set, the tag and the policy.
- `Flush`: the walk of `flush_helper` over the sets.
- `CacheModel`: the whole memory system as a value. One reference (`perform_access`) and a flush are transitions of this value, and every transition keeps the invariant.
- `Simulator`: the program as it runs. The set lists and occupancy counters live in arrays updated in place. In unified mode the data side uses the very same arrays as the instruction side (`cache.c:119-122`). The statistics are fields of a class. Each of `init_cache`, the three classifiers, `perform_access`, `flush_helper` and `flush` is a method, proved to perform the matching `CacheModel` transition and to keep every occupancy counter equal to its list's length.

The model keeps the program's quirks, including those where the code does
not do what a cache simulator is meant to do:

- A flush is meant to write back every dirty line once and leave the cache clean, so that a second flush writes nothing. The code clears the dirty bit of each set's head line only, not of the line it is visiting (`cache.c:416`). So a second flush counts again every dirty line that was not at a head, and in unified mode the shared sets are walked twice by one flush.
- A no-write-allocate store miss is meant to write one word through to memory. Under write-through the code counts two (`cache.c:359-366`).
- A write-allocate store miss is meant to leave the line it wrote dirty under write-back, whether or not it evicted a line. When the victim was dirty, the code leaves the new line clean (`cache.c:305-310`).
- The decoder takes the index bits from a field of ceil(log2(n_sets)) bits and reduces them modulo the set count (`cache.c:376`). When the set count is not a power of two, two different blocks can share a tag and a set: block 0 and block n_sets both decode to tag 0 in set 0, so a reference to one right after the other counts as a hit (Geometry.NonPow2SetsAlias). With a power-of-two set count the decoder tells every block apart (Geometry.DecodeIdentifiesBlock).
- An instruction fetch that evicts a dirty line charges the copy back to the data statistics (`cache.c:213`, `cache.c:226`).

## Model

| member | source | states |
|---|---|---|
| Config.CacheParams.constructor | cache.c:18-26 | The configuration starts unified, from the given defaults, with the words per block equal to the block size divided by the word size. |
| Config.WordsPerBlock | cache.c:45 | The words per block are the byte count divided by the word size with C's truncation toward zero: the product with the word size lies between zero and the byte count, within one word of it, for negative byte counts too. |
| Config.CacheParams.SetCacheParam | cache.c:37-79 | Each recognised option updates exactly its variable (a size option also decides split or unified, the block size also sets the words per block). An unrecognised option reports failure and changes nothing. |
| Config.LastSizeOptionDecidesSplit | cache.c:47-58 | After a sequence of options, the caches are split exactly when the last size option given was an instruction or data size. Without any size option, the split flag keeps its value. |
| Bits.Log2 | cache.c:84 | The floor base-2 logarithm: 2^r <= x < 2^(r+1). |
| Bits.CeilLog2 | cache.c:85 | The ceiling base-2 logarithm: the least r with n <= 2^r. |
| Bits.BitAndLowOnes | cache.c:86 | AND with (1 << n) - 1 keeps the value modulo 2^n. |
| Bits.BitAndOnesRange | cache.c:86 | The low k bits ANDed with the bits from o up to m are the bits from o up to k. |
| Bits.BitAndField | cache.c:376 | Masking the bits from o up to k and shifting right by o gives the block number (value / 2^o) modulo 2^(k - o). |
| Geometry.InitCacheHelper | cache.c:81-88 | The definition of `init_cache_helper`: the set count, the offset bits and the index mask. Geometry.InitCacheHelperGeometry, InitCacheHelperMask, IndexFitsInt and ShiftFitsInt state its properties. |
| Geometry.IndexFitsInt | cache.c:83-85 | For a valid shape the set count is the number of whole sets that fit (at least one), and the index bits plus the offset bits number at most 31, so the mask (1 << k) - 1 has at most 31 ones. |
| Geometry.ShiftFitsInt | cache.c:85-86 | The shift 1 << k of the mask stays within a signed 32-bit int (k <= 30) exactly when one way of the cache, the set count times the block size, takes at most 2^30 bytes. |
| Geometry.MaskSelectsIndexBits | cache.c:86 | ((1 << k) - 1) & ~(blockSize - 1) is exactly the mask of bits log2(blockSize) to k - 1. |
| Geometry.InitCacheHelperMask | cache.c:81-88 | The derived index mask selects exactly the index bits above the block offset. |
| Geometry.InitCacheHelperGeometry | cache.c:81-88 | The derived geometry keeps the size and associativity. Its set count is the number of whole sets that fit, at least one. It is consistent: the offset is log2 of the block size, and the mask selects the index bits. |
| Geometry.Decode | cache.c:373-376 | The decoded set index always names an existing set. |
| Geometry.DecodeOfBlock | cache.c:373-376 | Decoding depends only on the block number addr / blockSize. The index is its low index bits modulo the set count; the tag is the rest. |
| Geometry.SameBlockSameDecode | cache.c:373-376 | Two addresses that differ only in the block-offset bits decode to the same tag and index. |
| Geometry.BlockFromDecode | cache.c:373-376 | With a power-of-two set count, the block number is tag * nSets + index. |
| Geometry.DecodeIdentifiesBlock | cache.c:373-376 | With a power-of-two set count, two addresses decode alike exactly when they lie in the same block. |
| Geometry.NonPow2SetsAlias | cache.c:373-376 | For every consistent geometry whose set count is not a power of two, block 0 and block nSets are different blocks, and both have 32-bit addresses. They decode to the same tag and the same set. |
| LruList.Insert | cache.c:451-464 | The item becomes the head, the old lines follow in order, and the item is also the tail when the list was empty. |
| LruList.Delete | cache.c:429-446 | Exactly the line at position k goes. The others keep their order. The next line becomes the head when k was the head, and the previous line becomes the tail when k was the tail. |
| LruList.Find | cache.c:135-142 | The position of the first line holding the tag, or None exactly when no line holds it. |
| LruList.FindLine | cache.c:135-142 | The loop that walks the list from the head stops at the position Find gives, or falls off the tail exactly when Find gives None. |
| LruList.InsertAt | cache.c:451-464 | Links a line in at the head of one set of the array and changes no other set. |
| LruList.DeleteAt | cache.c:429-446 | Unlinks one line of one set of the array and changes no other set. |
| LruList.InsertKeepsDistinct | cache.c:149-152 | Linking in a line whose tag the scan did not find keeps the set's tags pairwise distinct. |
| LruList.DeleteKeepsDistinct | cache.c:429-446 | Unlinking a line keeps the other tags distinct and removes its tag from the set. |
| LruList.MoveToFront | cache.c:143-148 | The definition of the hit move, `delete` then `insert` of the found line. LruList.MoveToFrontKeepsLines and MoveHeadIsIdentity state its properties. |
| LruList.MoveToFrontKeepsLines | cache.c:143-148 | Moving the found line to the head keeps the set's lines as a multiset, its length and the distinctness of its tags, and puts that line at the head. |
| LruList.MoveHeadIsIdentity | cache.c:144-148 | Moving the line that is already at the head changes nothing, which is why a one-line set is left alone. |
| Access.Load | cache.c:128-245 | The definition of the set-level work of `calcDataLoadRefs` and `calcInsLoadRefs` (scan, hit move, fill or replace, and the counts). Access.LoadMissIffAbsent, LoadPutsTagAtHead, LoadHitKeepsLines, LoadMissFills, LoadKeepsSetOk and LoadOccupancy state its properties. |
| Access.StoreHit | cache.c:263-275 | The definition of a store hit: the hit move, the dirty bit, the write-through word. Access.StoreHitMarksLine and StoreHitKeepsSetOk state its properties. |
| Access.Store | cache.c:247-371 | The definition of the set-level work of `calcDataStoreRefs` under both allocation policies. Access.StoreMissIffAbsent, StoreNoAllocateMiss, StoreAllocateMiss, StoreAfterDirtyVictimIsClean, StoreKeepsSetOk and StoreOccupancy state its properties. |
| Access.LoadMissIffAbsent | cache.c:132-149 | A load or fetch misses exactly when no line of the set holds the tag. |
| Access.LoadPutsTagAtHead | cache.c:143-183 | After a load or fetch, the accessed tag is at the head of its set. |
| Access.LoadHitKeepsLines | cache.c:143-148 | A load hit keeps the set's lines (only their order may change). It fetches nothing, copies nothing back and replaces nothing. |
| Access.LoadMissFills | cache.c:150-183 | A load miss fetches a block into a clean line at the head. With room, the old lines follow unchanged. With a full set, the tail is evicted and counted as a replacement. A block is copied back exactly when write-back is on and the victim was dirty. |
| Access.LoadKeepsSetOk | cache.c:128-185 | A load keeps the set within its ways and its tags distinct. |
| Access.AbsentAfterEviction | cache.c:161-165 | Evicting the tail cannot bring back a tag the scan did not find. |
| Access.LoadOccupancy | cache.c:150-183 | The set grows by one line exactly on a miss into a set with room. Otherwise its length stays. |
| Access.StoreHitMarksLine | cache.c:263-275 | A store hit keeps the set's tags and puts the stored line at the head, dirty under write-back and clean under write-through. It writes one word through under write-through and fetches nothing. |
| Access.StoreNoAllocateMiss | cache.c:358-368 | A no-write-allocate store miss leaves the set untouched, counts a miss, fetches nothing, and copies one word, or two under write-through. |
| Access.StoreAllocateMiss | cache.c:276-335 | A write-allocate store miss fetches a block into a line at the head, evicting the tail of a full set. The new line is dirty under write-back unless a dirty victim was written back. Write-through adds one word. |
| Access.StoreAfterDirtyVictimIsClean | cache.c:305-310 | For every write-back, write-allocate store that misses a full set whose tail is dirty: the tail is evicted and copied back as a block, a block is fetched, and the new head line is clean, followed by the older lines in order. |
| Access.StoreKeepsSetOk | cache.c:247-371 | A store keeps the set within its ways and its tags distinct. |
| Access.StoreHitKeepsSetOk | cache.c:263-275 | The store hit path keeps the set within its ways and its tags distinct. |
| Access.StoreMissIffAbsent | cache.c:252-276 | A store misses exactly when no line of the set holds the tag. |
| Access.StoreOccupancy | cache.c:277-323 | The set grows by one line exactly on a write-allocate miss into a set with room. |
| Access.ChargeKeepsStatsOk | cache.c:184 | Counting an access adds one access and at most one miss, so replacements <= misses <= accesses is kept. |
| Access.ReplacementIsMiss | cache.c:161-174 | Loads and stores replace only on a miss. |
| Flush.FlushSet | cache.c:411-420 | The definition of the walk of one set: its head line is made clean, every other line is kept. Flush.FlushSetKeepsTags, CountDirtyAfterFlush and FlushTwiceCountsAgain state its properties. |
| Flush.FlushSets | cache.c:408-421 | Every set after the walk: the same number of sets, each one FlushSet of what it was. |
| Flush.FlushSetKeepsTags | cache.c:411-420 | The walk of a set keeps its length and tags, leaves its head line clean and every other line as it was. |
| Flush.CountDirtyAfterFlush | cache.c:413-417 | After one walk a set has one dirty line fewer exactly when its head was dirty. |
| Flush.DirtyLinesAfterFlush | cache.c:408-421 | Over all sets, the dirty lines left after a walk are the dirty lines minus the dirty heads. |
| Flush.NoDirtyHeadsAfterFlush | cache.c:416 | After a walk no set has a dirty head line. |
| Flush.FlushTwiceCountsAgain | cache.c:411-419 | For every set with a dirty line below its head: the first walk leaves a dirty line behind, and every further walk leaves the set unchanged, so each walk counts that line again. The walk is not idempotent. |
| CacheModel.Init | cache.c:101-126 | The definition of `init_cache`'s geometry: both caches from the unified size, or each from its own size when split. CacheModel.InitOk states its properties. |
| CacheModel.DataLoad | cache.c:128-185 | The definition of `calcDataLoadRefs` on the whole state. CacheModel.DataLoadKeepsInv, StepAccounting and HeadAfterAccess state its properties. |
| CacheModel.InstLoad | cache.c:187-245 | The definition of `calcInsLoadRefs` on the whole state, with copies back charged to the data statistics. CacheModel.InstLoadKeepsInv, StepAccounting and HeadAfterAccess state its properties. |
| CacheModel.DataStore | cache.c:247-371 | The definition of `calcDataStoreRefs` on the whole state. CacheModel.DataStoreKeepsInv, StepAccounting and StorePutsTagAtHead state its properties. |
| CacheModel.Step | cache.c:380-406 | The definition of `perform_access`: decode, then dispatch on the access type. CacheModel.StepKeepsInv, StepAccounting, StepNeverDecreases, HeadAfterAccess, ReaccessHits and HitOnHeadTag state its properties. |
| CacheModel.FlushAll | cache.c:423-427 | The definition of `flush`: the instruction (or unified) sets are walked, then the data sets. CacheModel.FlushKeepsInv, FlushNeverDecreases, FlushCleansHeads and UnifiedFlushCountsTwice state its properties. |
| CacheModel.InitOk | cache.c:101-126 | Building the caches from usable settings gives consistent geometries with at least one set each, identical geometries when unified, and an empty start state satisfying the invariant. |
| CacheModel.DataLoadKeepsInv | cache.c:128-185 | A data load keeps the invariant. |
| CacheModel.InstLoadKeepsInv | cache.c:187-245 | An instruction fetch keeps the invariant. |
| CacheModel.DataStoreKeepsInv | cache.c:247-371 | A data store keeps the invariant. |
| CacheModel.StepKeepsInv | cache.c:380-406 | Every reference keeps the invariant. Occupancy stays within the ways, tags stay distinct within a set, the unified sides stay shared, and replacements <= misses <= accesses. |
| CacheModel.FlushKeepsInv | cache.c:423-427 | A flush keeps the invariant. |
| CacheModel.StepAccounting | cache.c:380-406 | A data load or store adds one data access and at most one data miss and leaves the instruction statistics alone. A fetch adds one instruction access and at most one instruction miss, and touches the data statistics only through copies back. Any other access type changes nothing. |
| CacheModel.StepNeverDecreases | cache.c:380-406 | No reference decreases any counter of either stream. |
| CacheModel.FlushNeverDecreases | cache.c:423-427 | A flush decreases no counter. |
| CacheModel.HeadAfterAccess | cache.c:380-406 | After a load, a fetch, or a write-allocate store, the accessed tag heads the set the address decodes to. |
| CacheModel.StorePutsTagAtHead | cache.c:263-335 | Under write-allocate, a store leaves the stored tag at the head. |
| CacheModel.ReaccessHits | cache.c:380-406 | Right after a load, fetch or allocating store, a reference to the same block by the same stream hits. In unified mode a reference by either stream hits. |
| CacheModel.HitOnHeadTag | cache.c:380-406 | A reference whose tag heads its set hits. |
| CacheModel.FlushCleansHeads | cache.c:408-427 | After a flush no set has a dirty head line, and only the data copies back change. With split caches each dirty line costs exactly one block. |
| CacheModel.FlushSetsKeepShape | cache.c:408-421 | A flush keeps every set's length and well-formedness. |
| CacheModel.UnifiedFlushCountsTwice | cache.c:423-427 | In unified mode one flush adds 2D - H blocks to the copies back, where D is the number of dirty lines and H the number of dirty head lines, which the first walk cleaned. |
| Simulator.FetchInfo | cache.c:373-378 | Returns the decoded tag and index of the address, and the occupancy counter of that set. |
| Simulator.Promote | cache.c:143-148 | The found line moves to the head when the set holds more than one line. Occupancies are unchanged. |
| Simulator.Fill | cache.c:150-160 | Links a line in at the head and increments that set's occupancy, keeping every counter equal to its list's length. |
| Simulator.Replace | cache.c:161-165 | Unlinks the tail, links the new line in at the head, and returns the victim's dirty bit. Occupancies are unchanged. |
| Simulator.SetHeadDirty | cache.c:270-275 | Sets the dirty bit of the line at the head. |
| Simulator.LoadFill | cache.c:176-183 | A load miss into a set with room: a clean line at the head, one more miss, a block fetched. |
| Simulator.LoadScan | cache.c:132-175 | The scan of a non-empty set performs the Load transition on that set, keeps the counters equal to the lengths, and charges the outcome. |
| Simulator.LoadSet | cache.c:128-185 | The body of a load or fetch on one cache performs the Load transition of the set, counts the access and its outcome, and returns the words a dirty victim writes back. |
| Simulator.StoreHitSet | cache.c:263-275 | The store hit path performs StoreHit on the set and returns the words written through. |
| Simulator.StoreFill | cache.c:277-295 | A write-allocate miss into a set with room links in a line that is dirty under write-back. It counts a miss and a fetch, and one word through under write-through. |
| Simulator.StoreReplace | cache.c:296-318 | A write-allocate miss into a full set evicts the tail and links in a line that is dirty under write-back unless the victim was dirty. It counts a miss, a replacement and a fetch, and the copies back. |
| Simulator.StoreMiss | cache.c:276-319 | A write-allocate miss into a non-empty set performs the Store transition. |
| Simulator.StoreScan | cache.c:252-319 | The scan of a non-empty set for a write-allocate store performs the Store transition. |
| Simulator.StoreAround | cache.c:336-368 | A no-write-allocate store performs the Store transition and leaves the occupancy counters alone. |
| Simulator.StoreSet | cache.c:247-371 | The body of a store on the data cache performs the Store transition of the set, counts the access and its outcome, and returns the words copied back. |
| Simulator.FlushWalk | cache.c:412-419 | The loop over one set's lines leaves the set as FlushSet gives it, and adds one block per dirty line to the copies back. |
| Simulator.FlushLists | cache.c:408-421 | The loop over all sets leaves them as FlushSets gives them, and adds one block per dirty line of the cache to the copies back. |
| Simulator.EmptySets | cache.c:90-99 | Fresh arrays of empty set lists and zero occupancy counters. |
| Simulator.Simulator.constructor | cache.c:101-126 | Builds the caches in the model's initial state with the invariant holding. In unified mode the data side aliases the instruction side's arrays; in split mode the arrays are distinct. |
| Simulator.Simulator.CalcDataLoadRefs | cache.c:128-185 | Performs the DataLoad transition on the data cache and keeps the invariant. |
| Simulator.Simulator.CalcInsLoadRefs | cache.c:187-245 | Performs the InstLoad transition on the instruction cache, charging copies back to the data statistics, and keeps the invariant. |
| Simulator.Simulator.CalcDataStoreRefs | cache.c:247-371 | Performs the DataStore transition on the data cache and keeps the invariant. |
| Simulator.Simulator.PerformAccess | cache.c:380-406 | Performs one Step of the model, reusing the instruction-side decode in unified mode, and keeps the invariant. |
| Simulator.Simulator.FlushHelper | cache.c:408-421 | Walks every set of one cache. The sets become FlushSets of what they were, the data copies back grow by one block per dirty line, and the invariant is kept. |
| Simulator.Simulator.Flush | cache.c:423-427 | Performs the FlushAll transition: the instruction (or unified) sets, then the data sets, which are the same arrays when unified. |

## Left out

- The doubly linked lists of heap-allocated lines are modelled as one sequence of lines per set, head first. The prev and next links, `malloc` and `memset` of the set arrays, and the per-call line allocations that leak when unused (`cache.c:130-131`, `189-190`, `250-251`) are not modelled.
- The floating-point `ceil(log_float(n_sets))` (`cache.c:15`, `85`, `374`) is modelled as the exact ceiling of the base-2 logarithm. Float rounding could differ from it for set counts just above a large power of two. That case is not modelled.
- `LOG2`, `WORD_SIZE`, the default settings and the trace-reading driver are defined in `cache.h` and `main.h`, which are not part of this model. `LOG2` is the exact floor logarithm of a power-of-two block size, `WORD_SIZE` is 4, and the defaults are constructor parameters.
- `init_cache` is modelled only for settings with a power-of-two block size, at least one way, and a cache size that holds at least one set and fits a C `int`. The program does not check its settings. With no way, or a cache smaller than one set, it divides by zero. When `cache_block_size * cache_assoc` at `cache.c:83` exceeds 2^31 - 1 (a block size of 2^16 with 2^16 ways, say), the signed `int` product overflows, which is undefined behaviour; a size that fits an `int` and holds one set excludes these settings. With a block size that is not a power of two, the program runs, but its mask is not a contiguous field of index bits; the model does not cover such block sizes.
- When one way of the cache takes more than 2^30 bytes (possible for cache sizes up to 2^31 - 1), the index bits plus the offset bits number 31 (Geometry.ShiftFitsInt), and the C expression `1 << 31` at `cache.c:86` overflows a signed `int`, which is undefined behaviour. The model takes the mask as (2^31 - 1) with the offset bits cleared, the value that two's-complement wrap-around gives.
- `exit(-1)` on an unrecognised option is modelled as `SetCacheParam` returning false with the settings unchanged.
- The simulator takes a snapshot of the settings when the caches are built. Options set after `init_cache`, which the program would read on the next access, are not modelled.
- Counters, tags and occupancies are unbounded naturals. Overflow of the C `int` counters, and the conversion of the unsigned shifted address to an `int` tag, are not modelled.
- The branches that cannot be taken are left out: `!cache_writealloc` inside the write-allocate branch (`cache.c:280-281`, `301-302`, `324-325`), and the dirty test of a freshly zeroed line (`cache.c:153-156`, `212-215`, `284-287`). They change nothing.
- `dump_settings` and `print_stats` (`cache.c:468-520`) only print, and the rates are floating-point divisions.
- Simulator.LoadSet: in the worker methods the accessing stream's counters are passed in and returned as a value, and the class method stores them back. The program increments the global records field by field.
