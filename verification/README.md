# Models of SuperCollider's allocator, FFT, Qt event protocol, waveform cache and number reader

SuperCollider is an audio synthesis system: a server that computes sound, and a
language (`sclang`) with a Qt user interface. This project models five of its
parts, each of which works by changing state step by step, and proves what they
are for, for all inputs, all reachable states or all runs of the model. Where the
code does not do what it is for, an input shows it, and the condition under
which it does is stated.

* **The pool allocator** (`SC_AllocPool`), which serves real-time memory:
  boundary-tagged chunks in areas, 128 bins of free chunks, a four-word
  occupancy mask. Class `AllocPool` has the source's fields, with memory as
  maps from addresses to values; `mData` holds the bytes of the blocks, and a
  header written over bytes removes them from it. The invariant `Valid()` says
  that every area is tiled exactly by chunks whose two tags agree, that no two
  free chunks are neighbours, that the bins list exactly the free chunks, each
  in the bin of its size and large bins in order, that the mask marks exactly
  the bins that are not empty, and that the ring of areas holds exactly the
  areas. Every public operation is proved to keep it, with the exceptions
  described below, and is tied to the map `Blocks()` of the blocks handed out.
* **The in-place FFT** (`fftlib.c`): the bit-reversing first pass, the
  radix-2 or radix-4 fix-up, the radix-8 stages that walk a table of one
  quadrant of the cosine, and the pass that turns a half-size complex
  transform into a real one. The methods work on an array of complex numbers
  over exact reals and are proved equal to the recursive radix-2 transform, to
  the Fourier sum, and to each other's inverses. `Roots` stands for the
  N-th roots of unity: a map w with w(a + b) = w(a) w(b), of modulus one, with
  w(N/4) = -i (or +i), of which the table holds the real parts.
* **The synchronous events** between language threads and the Qt thread
  (`postSyncEvent`, `lockLang`, `QcSyncEvent`, `RequestEvent::send`), as a
  state machine of any number of threads whose steps are the statements of the
  source, one lock, post, wait or wake-up each; safety in all reachable states,
  and progress in all fair runs.
* **The waveform display** (`QcSoundFileView.cpp`): the cache of minima,
  maxima, sums and sums of squares, and the two ways of drawing from it and
  from the file.
* **`sc_strtod`** and **`SC_Semaphore`**.

The modules follow these parts. FFT: `Numbers`, `Complexes`, `Transform` (the
roots and the recursive transform), `Butterflies`, `Stages`, `RadixEight`,
`FixUp`, `BitReversal`, `BitReversalTable`, `FourierSum`, `Fft`, `RealFft`.
Allocator: `Chunks` (tags, areas and what joining and cutting chunks does to
them), `BinMask`, `Rings`, `FreeLists`, `Payload` (bytes), `PoolFacts`,
`Resizing` (facts about reallocation), `Walks` (going through areas),
`AllocPools` (the class), `PoolRuns` (sequences of calls), `PoolExamples`.
Events: `SyncEvents`, `SyncCalls`, `SyncFairness`. Semaphore: `Semaphore`. Waveform:
`Waveform`, `WaveformCache`, `Pixels`, `SoundFileView`, `SoundCacheView`, `WaveformDisplay`.
Numbers: `Strtod`, `StrtodDocs` (the documented numerals).

## What does not hold, and when

* When no free chunk is found and a new area is made, `Alloc` splits that area
  without looking at the size of the remainder (lines 400 to 413 of
  SC_AllocPool.cpp). When the configured area size is the request's size, or
  exceeds it by less than the minimum chunk size, the remainder is too small to
  be a chunk; when it exceeds it by 2^31 or more, the remainder is no int.
  `AllocPool.AllocArea` proves that `Valid()` holds afterwards if and only if the
  call did not make such an area; the guard, `Missplits(size)`, compares the
  request with the two configured sizes. `PoolExamples.TightExample` is a call
  that makes one.
* `Realloc` that grows a block backward and then splits off a remainder writes
  the remainder's header before it moves the bytes (lines 516 to 527). The bytes
  of the block arrive complete exactly when not `Overwrites(ptr, size)`, which
  compares sizes and addresses before the call. `PoolExamples.OverwriteRun`
  makes such a pool from scratch and such a call: a byte of the block is there
  before it (`OverwriteExample`) and missing after it.
* `LargestFreeChunk` with no free chunk at all computes the bin number -1 and
  reads in front of the bins. The model returns `None` there, and only there;
  `PoolExamples.LargestExample` is a full pool on which it does.
* The search of `Alloc` compares sizes through a 32-bit difference, which is wrong
  in both directions. A chunk that exceeds the request by 2^31 bytes or more can
  be passed over: a new pool of 3,072,000,000 bytes serves no request up to
  924,000,000 bytes (`PoolExamples.BigPool`). A request of more than 2^31 bytes can
  be given a chunk that is too small: then the block is tagged outside its chunk
  (`PoolExamples.TooSmallTaken`), or is simply too small
  (`PoolExamples.ShortBlock`). `FreeLists.FitTest` says for which sizes the test is
  right. `AllocPool.Alloc` is proved for all sizes: what is chosen, when it fails,
  when `Valid()` is kept and when the block is large enough. When no difference to
  a free chunk wraps (`Clear`), it is a best fit that fails exactly when nothing
  fits; this is so whenever the request and the areas are smaller than 2^31 bytes
  (`AllocPool.SmallPool`).
* `integrate` and `displayData` clamp positions by the duration of the window,
  although they begin at its offset in the stream. A window that begins a
  fraction of a frame into its stream, as those of the loader and of the drawing
  code do, loses that fraction at its end (`Waveform.WindowLoses`). In the cache
  this hits the last cell of every chunk whose first frame position is not
  whole, and no other cell: `SoundCacheView.CellSums` and `WholeCells`, with
  3002 frames in 3000 cells as the input of `CutCell`. In a window that begins
  further inside, the last units collapse at the clamp's limit, and each of them
  counts the rest of one and the same frame (`Waveform.DeepWindow`).
* A unit of `integrate` that ends inside its first frame counts that frame up to
  its end: too much by exactly the amount that `Waveform.UnitTooShort` states.
  `SoundFileView.ShortUnit` is a call of the public function with such a unit.
  The loader and the drawing code use at least one frame per unit, and then only
  a last unit cut by the clamp can be so short; the cell of `CutCell` is.
* A thread that holds gLangMutex may wait for `_mutex` for ever, if that lock is
  not fair and another thread asks for it again and again
  (`SyncFairness.WeakNotEnough`). With fair locks the holder gives gLangMutex up in
  every run (`FairRelease`), and with any locks in every run in which threads are
  given no new work and none that can step is held up for ever (`WeakRelease`).
* `lockLang` only tries for gLangMutex, so no fairness of threads and locks keeps
  the Qt thread from finding it taken each time (`SyncFairness.QtStarves`); it gets
  the lock once no language thread takes it any more (`QtGetsLockAlways`).
* The comment on `sc_strtod` wants "E" and its number together or not at all.
  The code takes an "E" without digits as exponent 0 and consumes it. It
  consumes the longest numeral of the documented form if and only if "E" comes
  with a digit or not at all (`StrtodDocs.FollowsDocumentation`); "1e" is the
  input of `StrtodDocs.ExponentWithoutDigits`. The comment also lets both I and F
  be left out; of such a text the code consumes nothing
  (`StrtodDocs.NeitherIsRead`), not even a lone point (`PointAlone`).

## Model

| member | source | states |
|---|---|---|
| Butterflies.Radix8IsThreeStages | SuperCollider/common/fftlib.c:557-640 | one radix-8 butterfly, with the eight values of a group in the order the code keeps them, is three successive stages of the radix-2 transform, in both directions |
| Butterflies.TurnedIsRot | SuperCollider/common/fftlib.c:593-598 | the butterflies written with real and imaginary part exchanged multiply by the twiddle turned by a quarter |
| Stages.Butterfly8 | SuperCollider/common/fftlib.c:544-683 | writes the butterfly of exactly the eight slots p + t * h and changes no other slot |
| Stages.GroupGathers | SuperCollider/common/fftlib.c:544-555 | the eight slots read by a butterfly hold the partial transforms of bit-reversed neighbouring subsequences |
| Stages.Column | SuperCollider/common/fftlib.c:537-784 | the LoopCnt loop takes column j of every block three stages further and leaves all other columns alone |
| RadixEight.CursorInTable | SuperCollider/common/fftlib.c:497-516 | at every step of both half stages the table cursors stay inside 0 .. N/4, real and imaginary cursor adding up to N/4 |
| RadixEight.LoadsTwiddles | SuperCollider/common/fftlib.c:508-516 | the values read through the cursors, with the sign flips of the second half, are the four twiddles the butterfly needs |
| RadixEight.CursorSteps | SuperCollider/common/fftlib.c:741-784 | one step of the cursors by NsameU4, NsameU2 and NsameU1 moves from column j to column j + 1 |
| RadixEight.NextStrides | SuperCollider/common/fftlib.c:807-815 | shifting the strides after a stage gives those of the next one: blocks times 8 times columns stays N |
| RadixEight.HalfStage | SuperCollider/common/fftlib.c:518-806 | the diffUcnt loop of one half takes its half of the columns three stages further |
| RadixEight.Radix8Stages | SuperCollider/common/fftlib.c:490-821 | all radix-8 stages together take the array from stage s0 to the complete transform |
| FixUp.EighthRoot | SuperCollider/common/fftlib.c:385-389 | the constant sqrt(0.5) is both parts of the eighth root of unity, from its being positive with square one half |
| FixUp.FixCompletes | SuperCollider/common/fftlib.c:300-467 | the fix-up butterflies complete one, or two, radix-2 stages of a group of eight |
| FixUp.FixUpStage | SuperCollider/common/fftlib.c:273-482 | after the fix-up every slot holds its value after 1 + rest stages |
| BitReversal.RevBase | SuperCollider/common/fftlib.c:173-176 | the groups at fly0P and fly1P hold bit-reverses of each other, for even M and for odd M |
| BitReversal.QuadIsGroup | SuperCollider/common/fftlib.c:171-261 | a slot belongs to the four slots of a group exactly when it has that group's stage, row and column: every slot is treated once |
| BitReversal.Exchange | SuperCollider/common/fftlib.c:178-227 | two groups exchange places, each with its butterflies, and no other slot changes |
| BitReversal.BitrevR2 | SuperCollider/common/fftlib.c:169-261 | the fused first pass is bit reversal followed by butterflies of adjacent slots, scaled, for every M and array |
| BitReversalTable.EntryReversed | SuperCollider/common/fftlib.c:19-41 | each of the 256 listed entries is the 8-bit reversal of its index |
| BitReversalTable.LookupReverses | SuperCollider/common/fftlib.c:157-176 | shifted right by BRshift, an entry is the reversal over M/2 - 1 bits, for every M the table reaches |
| FourierSum.DitIsDft | SuperCollider/common/fftlib.c:88-824 | the recursive radix-2 transform equals the discrete Fourier sum |
| FourierSum.BackIsSample | SuperCollider/common/fftlib.c:826-1562 | the sum of all coefficients against the inverse roots is 2^s times the sample |
| Fft.ComplexTransform | SuperCollider/common/fftlib.c:161-821 | the three phases in sequence compute the recursive transform of the scaled array, in either direction |
| Fft.Ffts | SuperCollider/common/fftlib.c:88-824 | for every M >= 3 and array, the array becomes its recursive radix-2 transform |
| Fft.Iffts | SuperCollider/common/fftlib.c:826-1562 | the array becomes the transform with inverse roots of the array divided by N |
| Fft.SpectrumIsFourier | SuperCollider/common/fftlib.c:88-98 | coefficient k of ffts is the sum of x[n] w(k n) |
| Fft.ImpulseTurns | SuperCollider/common/fftlib.c:88-98 | the sign of the exponent: the transform of an impulse at sample 1 is -i a quarter of the way, and i for the inverse |
| Fft.IfftsIsMirror | SuperCollider/common/fftlib.c:826-836 | iffts(x) = conj(ffts(conj(x))) / N |
| Fft.RoundTrip | SuperCollider/common/fftlib.c:826-836 | iffts undoes ffts |
| Fft.RoundTripBack | SuperCollider/common/fftlib.c:88-98 | ffts undoes iffts |
| RealFft.QuadStep | SuperCollider/common/fftlib.c:2379-2426 | one step rewrites the four slots k, N/4 - k, N/4 + k, N/2 - k, two by two, and nothing else |
| RealFft.ClassSlots | SuperCollider/common/fftlib.c:2363-2428 | the slots treated at step k are exactly those four: with the first four slots the steps cover every slot once |
| RealFft.RunPass | SuperCollider/common/fftlib.c:2315-2429 | the finishing pass, and the opening pass, rewrite every slot from the two old values it depends on |
| RealFft.JoinSeparate | SuperCollider/common/fftlib.c:2590-2615 | the opening butterfly undoes the finishing one up to the factor 4, for any point on the unit circle |
| RealFft.StartUndoesFinish | SuperCollider/common/fftlib.c:2512-2638 | the opening pass of riffts after the finishing pass of rffts is 4 times the identity, for every M and array |
| RealFft.FinishUndoesStart | SuperCollider/common/fftlib.c:2315-2429 | the finishing pass after the opening pass is 4 times the identity as well |
| RealFft.Rffts | SuperCollider/common/fftlib.c:1571-2433 | rffts is the half-size transform of the array halved, then the finishing pass |
| RealFft.Riffts | SuperCollider/common/fftlib.c:2435-3307 | riffts is the opening pass, then the half-size inverse transform with its scale |
| RealFft.RealRoundTrip | SuperCollider/common/fftlib.c:2435-2445 | riffts undoes rffts |
| RealFft.RealRoundTripBack | SuperCollider/common/fftlib.c:1571-1582 | rffts undoes riffts |
| RealFft.RfftsIsFourier | SuperCollider/common/fftlib.c:1571-1582 | slot k of rffts is coefficient k of the Fourier transform of the 2^M real samples, slot 0 packing coefficients 0 and N/2 |
| BinMask.NextFullBin | SuperCollider/include/common/SC_AllocPool.h:222-240 | the first marked bin at or above start, or -1 when there is none |
| BinMask.CtzIsLowest | SuperCollider/include/common/SC_AllocPool.h:228-237 | masking and counting trailing zeroes finds the lowest set bit at or above a position |
| BinMask.BitMarks | SuperCollider/include/common/SC_AllocPool.h:206-212 | marking bin i changes the mark of bin i and of no other |
| BinMask.BitUnmarks | SuperCollider/include/common/SC_AllocPool.h:214-220 | clearing bin i changes the mark of bin i and of no other |
| BinMask.BinIndexAgrees | SuperCollider/include/common/SC_AllocPool.h:184-204 | the formula by leading zeroes and the one by comparisons give the same bin for every size, below 128 |
| BinMask.BinIndexMonotone | SuperCollider/include/common/SC_AllocPool.h:198-204 | larger sizes never have smaller bin numbers |
| BinMask.SmallBin | SuperCollider/include/common/SC_AllocPool.h:181-182 | bins below 64 hold one aligned size each |
| BinMask.LargeBin | SuperCollider/include/common/SC_AllocPool.h:184-204 | from 1024 to 262144 every doubling has eight bins of equal width, and larger sizes share the last bin |
| AllocPools.RequestFits | SuperCollider/include/common/SC_AllocPool.h:174-179 | the size taken for a request is the smallest multiple of 16, and at least the minimum, that holds the bytes and the header |
| BinMask.LastMarked | SuperCollider/common/SC_AllocPool.cpp:265-275 | the highest bit of the last word that is not zero is the last marked bin |
| Chunks.JoinTiled | SuperCollider/common/SC_AllocPool.cpp:170-187 | tagging a whole range of chunks as one keeps every area tiled and every pair of tags equal |
| Chunks.CutTiled | SuperCollider/common/SC_AllocPool.cpp:408-413 | cutting a chunk in two aligned parts of minimum size keeps every area tiled |
| Chunks.NewAreaTiled | SuperCollider/common/SC_AllocPool.cpp:224-228 | an area in an unused range, as one free chunk between in-use tags, keeps the heap tiled |
| Chunks.DropAreaTiled | SuperCollider/common/SC_AllocPool.cpp:233-246 | giving back an area that is one chunk keeps the heap tiled |
| Chunks.FreeSpan | SuperCollider/common/SC_AllocPool.cpp:170-187 | freeing a block with its free neighbours leaves no two free chunks side by side and removes exactly that block |
| Chunks.IsAreaTest | SuperCollider/include/common/SC_AllocPool.h:91-92 | two in-use sentinels around a chunk mean that it is the whole of its area |
| Rings.InsertRing | SuperCollider/common/SC_AllocPool.cpp:541-547 | inserting a node between two neighbours keeps the ring well linked, in the expected order |
| Rings.RemoveRing | SuperCollider/include/common/SC_AllocPool.h:261-264 | unlinking a node keeps the ring well linked, without that node only |
| Rings.AreaUnlink | SuperCollider/common/SC_AllocPool.cpp:237-243 | unlinking an area leaves a ring of exactly the other areas, whichever node it is entered at |
| FreeLists.InsertBin | SuperCollider/common/SC_AllocPool.cpp:534-549 | inserting in order keeps every bin sorted, on one ring, and with the sizes of its index |
| FreeLists.FirstIsChosen | SuperCollider/common/SC_AllocPool.cpp:342-368 | what the search finds, the first chunk from the back of a bin that passes its int32 test when none in the bins before it does, is a smallest chunk that passes, over all bins |
| FreeLists.FitTest | SuperCollider/common/SC_AllocPool.cpp:342-350 | for all sizes: the int32 test tells whether a chunk is large enough if and only if a chunk that is exceeds the request by less than 2^31, modulo 2^32, and one that is not falls short of it by at most 2^31 |
| FreeLists.RemainderTest | SuperCollider/common/SC_AllocPool.cpp:342-350 | the remainder the search takes is the difference of the sizes exactly when that is an int32 |
| FreeLists.NothingAccepted | SuperCollider/common/SC_AllocPool.cpp:356-372 | when the search ends without a chunk, no free chunk in the bins of the request's size and above passes the test |
| FreeLists.ClearSearch | SuperCollider/common/SC_AllocPool.cpp:321-372 | when no difference wraps the search is a best fit: it accepts nothing exactly when no chunk fits, and chooses a smallest fitting chunk |
| FreeLists.TopBin | SuperCollider/common/SC_AllocPool.cpp:263-285 | the largest chunk of the highest marked bin is the largest of all |
| AllocPools.AllocPool.constructor | SuperCollider/common/SC_AllocPool.cpp:92-104 | for all configured sizes an empty pool, with its first area when one is configured and the area function returns one, satisfies the invariant; when it returns NULL, on which the source throws, there is no area |
| AllocPools.AllocPool.InitBins | SuperCollider/common/SC_AllocPool.cpp:82-90 | no bin lists anything and no bit is set |
| AllocPools.AllocPool.InitAlloc | SuperCollider/common/SC_AllocPool.cpp:68-80 | one area more, wholly free; blocks and their bytes are unchanged; fails only on NULL |
| AllocPools.AllocPool.UnlinkFree | SuperCollider/include/common/SC_AllocPool.h:261-268 | the lists lose exactly this chunk and the mask stays exact |
| AllocPools.AllocPool.LinkFree | SuperCollider/common/SC_AllocPool.cpp:534-549 | the lists gain exactly this chunk, in the bin of its size and in order, and the mask stays exact |
| AllocPools.AllocPool.FindPlace | SuperCollider/common/SC_AllocPool.cpp:545-546 | finds the first position whose chunk is no larger |
| AllocPools.AllocPool.FreeArea | SuperCollider/common/SC_AllocPool.cpp:233-246 | the area leaves the ring and the heap, and nothing else does |
| AllocPools.AllocPool.NewArea | SuperCollider/common/SC_AllocPool.cpp:199-231 | the new area heads the ring, as one free chunk not yet on a list; bytes outside its headers are unchanged |
| AllocPools.AllocPool.Consolidate | SuperCollider/common/SC_AllocPool.cpp:170-185 | chunk and size are those of the range of free neighbours around the block, all taken off their lists |
| AllocPools.AllocPool.Free | SuperCollider/common/SC_AllocPool.cpp:155-195 | exactly this block is given up, every other block keeps its bytes, and the area is given back exactly when the pool grows and the block was its last; free(0) changes nothing |
| AllocPools.AllocPool.ScanBin | SuperCollider/common/SC_AllocPool.cpp:342-353 | the last chunk of a bin, from the front, that passes the test, or the head |
| AllocPools.AllocPool.FindFit | SuperCollider/common/SC_AllocPool.cpp:321-368 | a smallest chunk that passes the int32 test, with its int32 remainder when that is at least a minimum chunk, or nothing exactly when none passes |
| AllocPools.AllocPool.UseBigger | SuperCollider/common/SC_AllocPool.cpp:356-368 | a chosen chunk is split; the heap stays valid if and only if the remainder is the difference of the sizes |
| AllocPools.AllocPool.Carve | SuperCollider/common/SC_AllocPool.cpp:408-416 | the front of a free chunk becomes the block and the rest a listed chunk; the heap stays valid exactly when the given remainder is the difference of the sizes and of minimum size |
| AllocPools.AllocPool.AllocArea | SuperCollider/common/SC_AllocPool.cpp:371-406 | a fixed pool that has its area, or a request above its area size, is refused; a growable pool always gets an area when the area function returns one: of the configured size, or, for a request above that, of the request's size, which then is wholly the block; the block is at the area's beginning, and the heap is valid unless the remainder of a split is too small or no int32 |
| AllocPools.AllocPool.Alloc | SuperCollider/common/SC_AllocPool.cpp:296-427 | for every request: a smallest chunk that passes the test, split exactly when at least a minimum chunk is left; when none passes, a growable pool fails only on NULL and has one area more, of the configured size or exactly the request's, and a fixed pool gets its area if it has none and the request is not larger, and fails otherwise; the invariant is kept if and only if the split, of a chunk or of a new area, has a true remainder of minimum size; other blocks keep place, size and bytes. When no difference wraps: best fit, failing exactly when nothing fits and no area can be had, and the block less than a minimum chunk larger than requested |
| AllocPools.AllocPool.SmallPool | SuperCollider/common/SC_AllocPool.cpp:296-368 | below 2^31, in the request and in all areas, no difference wraps |
| AllocPools.AllocPool.GrowInPlace | SuperCollider/common/SC_AllocPool.cpp:453-490 | the block grows in place exactly when its size with its free neighbours suffices; which neighbours are taken is what GrowsWhere says |
| Resizing.GrowsWhere | SuperCollider/common/SC_AllocPool.cpp:453-490 | a block that is large enough, or is with the free chunk behind it, stays at its address; otherwise, when all of it with the free chunk in front is large enough, it begins at that chunk, and takes the free chunk behind as well; in no other case it grows in place |
| AllocPools.AllocPool.Resize | SuperCollider/common/SC_AllocPool.cpp:507-523 | the grown block is cut when the rest is a chunk of its own; other blocks keep their bytes, and so does this one unless the cut falls into it |
| Resizing.MovedAreas | SuperCollider/common/SC_AllocPool.cpp:187-193 | an area is given back with a freed block exactly when the pool grows and no other block lies between its ends |
| Resizing.LastLeaves | SuperCollider/common/SC_AllocPool.cpp:187-193 | the area that goes is the one around the freed block, when no other block lies in it and the pool grows; all others stay |
| AllocPools.AllocPool.ReallocElsewhere | SuperCollider/common/SC_AllocPool.cpp:492-505 | the bytes arrive in a new block, the old block is freed, other blocks keep theirs; the areas are those of Alloc less the old block's area if no block is left in it; fails exactly when Alloc does, then changing nothing |
| AllocPools.AllocPool.ReallocInPlace | SuperCollider/common/SC_AllocPool.cpp:453-531 | in place exactly when the block and its free neighbours suffice; where GrowsWhere says; cut to the new size exactly when at least a minimum chunk is left over; no area changes, and its bytes arrive unless Overwrites |
| AllocPools.AllocPool.Realloc | SuperCollider/common/SC_AllocPool.cpp:430-532 | exactly one block is replaced by one of the new size; a block that is large enough, or is with the free chunk behind it, keeps its address and its bytes up to the smaller size; one that is with the free chunk in front as well begins there; fails exactly when it cannot stay and Alloc fails, then changing nothing; other blocks keep their bytes; its own bytes arrive, up to the smaller size, if and only if not Overwrites; in place the areas stay, on a move they are those of Alloc less the old block's area if it is left without blocks, and in a fixed pool that has its area they always stay |
| AllocPools.AllocPool.FreeAllInternal | SuperCollider/common/SC_AllocPool.cpp:128-147 | no blocks are left and every area is one free chunk |
| AllocPools.AllocPool.FreeAll | SuperCollider/common/SC_AllocPool.cpp:111-126 | each area is given back once, and the pool is empty |
| AllocPools.AllocPool.Reinit | SuperCollider/common/SC_AllocPool.cpp:149-153 | the pool is as the constructor made it |
| AllocPools.AllocPool.TotalFree | SuperCollider/common/SC_AllocPool.cpp:249-261 | the sum over the bins is the sum over all free chunks, and the free bytes found by walking the areas |
| AllocPools.AllocPool.LargestFreeChunk | SuperCollider/common/SC_AllocPool.cpp:263-294 | the size of a largest free chunk, whenever there is a free chunk, and none exactly when there is not |
| Walks.WalkConserves | SuperCollider/common/SC_AllocPool.cpp:551-564 | from any chunk to the end of its area, free and used sizes add up to the distance |
| Walks.AreaConserved | SuperCollider/common/SC_AllocPool.cpp:551-564 | the free and used chunks of an area add up to its size |
| Walks.FreeByWalking | SuperCollider/common/SC_AllocPool.cpp:249-261 | the free chunks are those met by walking all areas |
| PoolFacts.SpanIsArea | SuperCollider/common/SC_AllocPool.cpp:187-193 | freeing a block frees its whole area exactly when it was the only block there |
| PoolFacts.SplitBreaks | SuperCollider/common/SC_AllocPool.cpp:408-416 | a chunk cut with a rest that is not what is left of it, or below the minimum, no longer tiles its area |
| PoolRuns.LiveBlocks | SuperCollider/common/SC_AllocPool.cpp:664-684 | two live blocks never overlap, and each lies in one area |
| PoolRuns.FixedCall | SuperCollider/common/SC_AllocPool.cpp:155-532 | any legal call on a fixed pool that has its area, for whose requests the search chooses only chunks that are large enough, keeps the pool sound and its one area of mAreaInitSize, and free and used chunks add up to it |
| PoolRuns.FreeInOrder | SuperCollider/common/SC_AllocPool.cpp:155-195 | in a fixed pool that has its area, freeing all live blocks in any order leaves exactly one free chunk, of mAreaInitSize |
| PoolExamples.TightExample | SuperCollider/common/SC_AllocPool.cpp:400-413 | a call of Alloc after which the invariant does not hold |
| PoolExamples.BigPool | SuperCollider/common/SC_AllocPool.cpp:342-372 | a fixed pool of 3,072,000,000 bytes, all one free chunk: Alloc fails for every request up to 924,000,000 bytes although that chunk fits |
| PoolExamples.TooSmallTaken | SuperCollider/common/SC_AllocPool.cpp:342-368 | a call of Alloc for 2^31 + 262144 bytes is given the chunk of 262144 bytes, and the invariant does not hold after it |
| PoolExamples.ShortBlock | SuperCollider/common/SC_AllocPool.cpp:342-356 | a call of Alloc for 2^32 + 262128 bytes gets a block of 262144 bytes, and the invariant holds after it |
| PoolExamples.FullPool | SuperCollider/common/SC_AllocPool.cpp:296-427 | three calls of Alloc fill a fixed pool of 192 bytes from front to back |
| PoolExamples.LargestExample | SuperCollider/common/SC_AllocPool.cpp:263-294 | a sound pool, full of blocks, on which the search for the largest free chunk ends in bin -1: there is none |
| PoolExamples.MiddleBlock | SuperCollider/common/SC_AllocPool.cpp:155-195 | the pool with its first block freed and the bytes of the second one written |
| PoolExamples.OverwriteRun | SuperCollider/common/SC_AllocPool.cpp:507-527 | a new pool, three calls of Alloc, one of Free, 48 bytes written to the second block, and Realloc of that block to 64 bytes: one of the 48 bytes is not in the block it returns |
| SyncEvents.StepInv | SuperCollider/QtCollider/QcApplication.cpp:49-112 | every step of any thread keeps the invariant that ties each poster's position to its event, its mutex and its result |
| SyncEvents.RunInv | SuperCollider/QtCollider/QcApplication.cpp:49-112 | the invariant holds after every run |
| SyncEvents.NoLostWakeup | SuperCollider/QtCollider/QcApplication.cpp:60-70 | in every reachable state, a poster asleep on its condition has its event queued, executing, or about to wake it |
| SyncEvents.NoEarlyReturn | SuperCollider/QtCollider/QObjectProxy.cpp:464-480 | when a poster leaves, its handler has run, done holds the result, and the Qt thread is past the poster's mutex and condition |
| SyncCalls.SendHandled | SuperCollider/QtCollider/QcApplication.cpp:60-110 | in every run, between the beginning and the return of a call of send, and of postSyncEvent behind its check, the Qt thread runs the handler of its event exactly once, and done, false until then, is on return what that run gave |
| SyncCalls.AskAnswered | SuperCollider/QtCollider/QcApplication.cpp:74-110 | a call of postSyncEvent with a handler that has returned has had its handler sent if and only if there is an instance; without one it returned from the check |
| SyncCalls.EventsInOrder | SuperCollider/QtCollider/Common.cpp:29-37 | in every run the events posted are those handled, the one being handled and those queued, in this order: every event is handled once, in the order of posting |
| SyncCalls.LangKept | SuperCollider/QtCollider/Common.cpp:29-37 | from its taking to its giving up of gLangMutex a language thread holds it, and the Qt thread does not |
| SyncCalls.AppHeld | SuperCollider/QtCollider/QcApplication.cpp:92-111 | postSyncEvent with a handler holds _mutex from its second locking until it returns |
| SyncCalls.AppExclusive | SuperCollider/QtCollider/QcApplication.cpp:74-112 | no two threads are between the locking and the unlocking of _mutex at once |
| SyncCalls.LockLangReturns | SuperCollider/QtCollider/Common.cpp:21-43 | after every run the Qt thread is in lockLang if and only if a call of it has begun and has not yet taken the lock, whatever events it handles in between |
| SyncEvents.StackAlive | SuperCollider/QtCollider/Common.h:111-118 | the Qt thread uses an event, and the objects on its poster's stack, only while the poster is in postSyncEvent between post and the end of wait |
| SyncEvents.LangNotMore | SuperCollider/QtCollider/QcApplication.cpp:60-110 | no step of a language thread increases the ranking of another, and each own step decreases it, while one of them holds gLangMutex |
| SyncEvents.QtNotMore | SuperCollider/QtCollider/Common.cpp:29-37 | no step of the Qt thread increases the ranking, and each decreases it for a poster whose event is pending |
| SyncEvents.StepNotMore | SuperCollider/QtCollider/Common.cpp:21-43 | the ranking of a thread, its remaining steps and then the steps until its event is served, never increases |
| SyncEvents.NotStuck | SuperCollider/QtCollider/QcApplication.cpp:49-71 | a thread with work left that does not wait for _mutex can always be brought closer to its end by an enabled step |
| SyncEvents.Settles | SuperCollider/QtCollider/Common.cpp:21-43 | in every infinite run in which language threads go on holding gLangMutex, a thread takes finitely many steps, and the Qt thread finitely many while that thread's event is pending |
| SyncEvents.HolderReleases | SuperCollider/QtCollider/Common.cpp:21-43 | in every run in which steps of the holder, or of the Qt thread while the holder's event is pending, come again and again, gLangMutex is released |
| SyncEvents.HolderLeaves | SuperCollider/QtCollider/Common.cpp:21-43 | the holder of gLangMutex can always come to release it |
| SyncEvents.QtLocks | SuperCollider/QtCollider/Common.cpp:29-37 | with gLangMutex free, the Qt thread serves what is queued and takes it |
| SyncEvents.QtGetsLock | SuperCollider/QtCollider/Common.cpp:21-43 | from every reachable state in which a language thread holds gLangMutex, a run exists in which the Qt thread leaves lockLang with the lock: no deadlock |
| SyncFairness.FairRelease | SuperCollider/QtCollider/Common.cpp:21-43 | in every run in which each thread that can step again and again does so, whoever holds gLangMutex releases it |
| SyncFairness.GoesOn | SuperCollider/QtCollider/QcApplication.cpp:49-112 | in no such run a thread with work that does not wait for _mutex stays where it is for ever while language threads go on holding gLangMutex |
| SyncFairness.WaitsForApp | SuperCollider/QtCollider/QcApplication.cpp:74-112 | in no such run a thread waits for _mutex for ever while language threads go on holding gLangMutex |
| SyncFairness.WeakRelease | SuperCollider/QtCollider/Common.cpp:21-43 | when only a thread that can step without interruption is sure to step, gLangMutex is released as well, once no thread is given more work |
| SyncFairness.WeakNotEnough | SuperCollider/QtCollider/QcApplication.cpp:74-96 | and not otherwise: an infinite run, weakly fair, in which the holder waits for _mutex and never gets it from a thread that asks for it again and again |
| SyncFairness.QtGetsLockAlways | SuperCollider/QtCollider/Common.cpp:21-43 | in every weakly fair run the Qt thread gets gLangMutex, once no language thread takes it or is given more work |
| SyncFairness.QtStarves | SuperCollider/QtCollider/Common.cpp:21-43 | an infinite run, fair to all threads, in which lockLang tries again and again and never finds gLangMutex free |
| Semaphore.Accounting | SuperCollider/common/SC_Sem.cpp:37-55 | in every interleaving, with spurious wake-ups: count = initial + signals in the run - threads that went on from the wait loop in the run, and is not negative; one thread in a critical section; with a thread asleep at least count awakened ones contend |
| Semaphore.CallsCounted | SuperCollider/common/SC_Sem.cpp:37-55 | counted by the calls: whenever the mutex is free, count = initial + returned calls of release - returned calls of acquire, and no more calls of acquire return than there are permits |
| Semaphore.NotStranded | SuperCollider/common/SC_Sem.cpp:37-55 | when permits exist and a thread sleeps, an awakened thread takes one as soon as it has the mutex |
| Waveform.UnitIsIntegral | SuperCollider/QtCollider/widgets/QcSoundFileView.cpp:748-785 | the weighted sum of a unit that reaches its first frame's end is the integral of the samples over it |
| Waveform.UnitTooShort | SuperCollider/QtCollider/widgets/QcSoundFileView.cpp:760-785 | a shorter unit is too large by exactly the part of the frame behind it |
| Waveform.UnitExact | SuperCollider/QtCollider/widgets/QcSoundFileView.cpp:760-785 | every unit is the integral over it and, when it ends inside its first frame, the rest of that frame |
| Waveform.UnitCovers | SuperCollider/QtCollider/widgets/QcSoundFileView.cpp:746-793 | every unit, reversed and empty ones included, is the integral from its beginning to its end or to the end of its first frame |
| Waveform.PosIsPlace | SuperCollider/QtCollider/widgets/QcSoundFileView.cpp:748-758 | the positions stepped through are start + i * step, at most the limit |
| Waveform.SumsUpTo | SuperCollider/QtCollider/widgets/QcSoundFileView.cpp:746-793 | the sums of the first k units, from any start, add up to the integral from the start to the end of the k-th |
| Waveform.MassConserved | SuperCollider/QtCollider/widgets/QcSoundFileView.cpp:743-793 | for a window at the stream's beginning with at least one frame per unit, the sums of all units add up to the integral over all of it: shared frames are counted once |
| Waveform.WindowLoses | SuperCollider/QtCollider/widgets/QcSoundFileView.cpp:743-793 | a window that begins inside the first step adds up to the integral over it less its last start frames, by the clamp, and what its last unit counts too much |
| Waveform.DeepWindow | SuperCollider/QtCollider/widgets/QcSoundFileView.cpp:743-793 | a window that begins anywhere inside the stream: the units that are not collapsed add up to the integral from its start to the clamp's limit, with the rest of a frame cut at the limit, and each collapsed unit counts the rest of the frame at the limit; with the start behind the limit the first unit counts the rest of its own frame, or nothing |
| WaveformCache.PixelAgrees | SuperCollider/QtCollider/widgets/QcSoundFileView.cpp:959-1017 | a pixel made of whole cached units has the extremes and sums of the same pixel made of frames |
| WaveformCache.CellsTotal | SuperCollider/QtCollider/widgets/QcSoundFileView.cpp:986-1004 | sums of cached sums are the sums over the frames |
| WaveformCache.CellsExtremes | SuperCollider/QtCollider/widgets/QcSoundFileView.cpp:986-993 | extremes of cached extremes are the extremes over the frames |
| WaveformCache.UnitHolds | SuperCollider/QtCollider/widgets/QcSoundFileView.cpp:766-785 | the extremes of a unit bound its frames and are taken by some of them, and its sums are the integrals |
| SoundFileView.SoundFileStream.Load | SuperCollider/QtCollider/widgets/QcSoundFileView.cpp:717-731 | each channel holds the frames floor(b) to ceil(b + d) of the file, as far as there are any |
| SoundFileView.Deinterleaved | SuperCollider/QtCollider/widgets/QcSoundFileView.cpp:760-764 | every datum of the file is read as the sample of its own channel and frame |
| SoundFileView.SoundFileStream.Measure | SuperCollider/QtCollider/widgets/QcSoundFileView.cpp:766-785 | extremes and weighted sums of one unit |
| SoundFileView.SoundFileStream.Integrate | SuperCollider/QtCollider/widgets/QcSoundFileView.cpp:733-796 | the units of the window go into the cells from at on, and nowhere else, and hold the extremes and integrals of the frames from position to position; fails exactly outside the stream; from the stream's beginning the sums written, and the sums of squares, add up to the integral over the window |
| SoundFileView.WindowMass | SuperCollider/QtCollider/widgets/QcSoundFileView.cpp:743-793 | what the sums of the cells of a window add up to, for any start below one step |
| SoundFileView.DeepMass | SuperCollider/QtCollider/widgets/QcSoundFileView.cpp:743-793 | the same of the cells of a window that begins anywhere inside the stream |
| SoundFileView.ShortUnit | SuperCollider/QtCollider/widgets/QcSoundFileView.cpp:733-796 | one frame of value 8 in two units: the first one, half of the frame, counts 8 |
| SoundFileView.SoundFileStream.DisplayData | SuperCollider/QtCollider/widgets/QcSoundFileView.cpp:798-868 | pixel i draws the frames between positions i and i + 1: the least range from minimum to maximum that covers them and meets the pixel before, and RMS lines at the whole parts of m - d and m + d, where n m is the integral of the samples and n d^2 that of the squares less n m^2, for any root function |
| Pixels.RmsLines | SuperCollider/QtCollider/widgets/QcSoundFileView.cpp:853-860 | average less and plus deviation are in order, and are the mean and the deviation of the sums |
| Pixels.StretchedRange | SuperCollider/QtCollider/widgets/QcSoundFileView.cpp:841-867 | a range covers its entries, touches the range of the pixel before, and is no larger than that takes |
| SoundCacheView.ShapeCovers | SuperCollider/QtCollider/widgets/QcSoundFileView.cpp:911-922 | a file of at most maxRawFrames frames has a cell per frame; a longer one has maxRawFrames cells that cover it exactly, or, exactly when these had more than maxFramesPerUnit frames, cells of that many, no fewer, that cover it up to less than one cell |
| SoundCacheView.ChunkIsCells | SuperCollider/QtCollider/widgets/QcSoundFileView.cpp:1071-1080 | for every real number of frames per unit, a chunk of a thousand cells, read and integrated on its own, has in cell k the aggregates of the file from k fpu to (k + 1) fpu, except that its last cell ends earlier by the fraction of a frame at which the chunk begins |
| SoundCacheView.CellSums | SuperCollider/QtCollider/widgets/QcSoundFileView.cpp:1069-1083 | the sums of cell k are the integral from k fpu to (k + 1) fpu less the part cut off, and what a cut cell inside one frame counts too much |
| SoundCacheView.CellHolds | SuperCollider/QtCollider/widgets/QcSoundFileView.cpp:1069-1083 | the extremes of cell k are those of the frames it touches, and its sums the integrals, from k fpu to its end |
| SoundCacheView.WholeCells | SuperCollider/QtCollider/widgets/QcSoundFileView.cpp:1069-1083 | no cell is cut if and only if every chunk begins at a frame |
| SoundCacheView.CutCell | SuperCollider/QtCollider/widgets/QcSoundFileView.cpp:1069-1083 | 3002 frames in 3000 cells: cell 1999 ends inside frame 2000, 501/1500 of a frame after its start, and counts 1001/1500 of that frame |
| SoundCacheView.SoundCacheStream.Load | SuperCollider/QtCollider/widgets/QcSoundFileView.cpp:895-935 | the cache has the size and frames per unit of the rule, and is not ready |
| SoundCacheView.SoundCacheStream.Run | SuperCollider/QtCollider/widgets/QcSoundFileView.cpp:1060-1089 | afterwards every cell k of every channel holds the aggregates of the file from k fpu to the cell's end, (k + 1) fpu or what ChunkIsCells says for the last cell of a chunk, and the cache is ready |
| SoundCacheView.SoundCacheStream.DisplayData | SuperCollider/QtCollider/widgets/QcSoundFileView.cpp:946-1021 | pixel i draws the cells between positions i and i + 1, as the direct display draws frames, except that a cell shared with the pixel before counts for sums only; fails exactly when not ready, outside the file or too fine |
| WaveformDisplay.LoaderFills | SuperCollider/QtCollider/widgets/QcSoundFileView.cpp:1069-1083 | with whole frames per unit, cell k aggregates exactly frames k u to (k + 1) u - 1 |
| WaveformDisplay.WindowsAgree | SuperCollider/QtCollider/widgets/QcSoundFileView.cpp:959-1017 | for whole frames per unit and every unit-aligned window whose pixels are whole units, the units from the cache are the units from the file |
| WaveformDisplay.DisplayTwice | SuperCollider/QtCollider/widgets/QcSoundFileView.cpp:946-1021 | the cached and the direct display of such a window fill their buffers with the same minima, maxima and RMS lines, which are those of the frames of each pixel |
| Strtod.CountMantissa | SuperCollider/common/strtod.c:138-149 | the end of the mantissa, its number of digits, and the place of its point |
| Strtod.TakeDigits | SuperCollider/common/strtod.c:178-198 | an accumulator of up to nine digits holds their number and stays below 10^9 |
| Strtod.Fraction | SuperCollider/common/strtod.c:175-200 | two accumulators, both below 10^9, give the number of up to 18 digits |
| Strtod.PowerOf10 | SuperCollider/common/strtod.c:246-251 | the loop over the exponent's bits computes 10^exp and stays inside the table of nine |
| Strtod.ApplyExponent | SuperCollider/common/strtod.c:229-256 | the value is scaled by ten to the exponent, kept within 511, and the error set exactly when it was not |
| Strtod.Convert | SuperCollider/common/strtod.c:113-267 | the code computes what the scan of the text says: value, end and range error, a text without digits giving 0 at its start |
| Strtod.ExactOnNumerals | SuperCollider/common/strtod.c:83-93 | every numeral of the grammar with at most 18 digits and an exponent within reach is read as exactly the number it denotes, up to its last character |
| Strtod.LongNumerals | SuperCollider/common/strtod.c:151-156 | with more digits the value falls short, toward zero, by less than one unit of the 18th digit |
| Strtod.NumeralGives | SuperCollider/common/strtod.c:151-260 | every numeral, of any length and exponent, is read as its sign, its first 18 digits, and ten to the exponent that places them, or to 511 or -511 with the range error set when that exponent is beyond |
| Strtod.NumeralFound | SuperCollider/common/strtod.c:113-222 | every text in which digits are found begins with a numeral |
| Strtod.Consumed | SuperCollider/common/strtod.c:64-70 | text is consumed if and only if it begins with a numeral, and then exactly that numeral |
| Strtod.SC_Strtod | SuperCollider/common/strtod.c:78-267 | the two together, of the method: end > 0 if and only if the text begins with a numeral, which is then what is consumed and valued; any other text gives 0 |
| StrtodDocs.Reaches | SuperCollider/common/strtod.c:83-93 | every numeral that begins a text is read, to its end at least |
| StrtodDocs.DocumentedLength | SuperCollider/common/strtod.c:83-93 | the longest documented numeral at the start of a text is what is read, less an exponent without digits |
| StrtodDocs.FollowsDocumentation | SuperCollider/common/strtod.c:83-93 | what is consumed is the longest documented numeral if and only if E comes with a digit in X or not at all; otherwise the exponent's text is consumed as well, and the value is the documented one in both cases |
| StrtodDocs.NothingMissed | SuperCollider/common/strtod.c:83-93 | a text of which nothing is read begins with no numeral |
| StrtodDocs.ExponentWithoutDigits | SuperCollider/common/strtod.c:206-222 | 1e: two characters are consumed, one is documented |
| StrtodDocs.NeitherIsRead | SuperCollider/common/strtod.c:171-174 | with neither I nor F, which the documentation allows, nothing is consumed: as documented if and only if there is nothing |
| StrtodDocs.PointAlone | SuperCollider/common/strtod.c:171-174 | a lone point: nothing is consumed |
| StrtodDocs.ReadSample | SuperCollider/common/strtod.c:78-267 | blanks of every kind, -12.5e1 and a rest: -125, with 13 characters consumed |

## Left out

- AllocPools.AllocPool.Realloc: when the block has to move, calls for which Alloc would break the heap (a missplit area) or choose a chunk that is too small are excluded by preconditions, because the code goes on to copy into such a block and to free the old one in a heap that is already broken; AllocPools.AllocPool.Alloc says exactly when that is. In place there is no such condition.
- AllocPools.AllocPool.ReallocElsewhere: the same preconditions, for the same reason.
- PoolRuns.FixedCall: a call whose search would choose a chunk that is too small is not legal; SmallPool says that there is none below 2^31.
- AllocPools.AllocPool.LargestFreeChunk: the read in front of the bins that the code makes when no chunk is free is not modelled; the result is None there.
- WaveformDisplay.WindowsAgree: frames per unit and units per pixel are whole numbers. With a fraction of a frame per unit the last cell of a chunk may be cut (SoundCacheView.CellSums), and with a fraction of a unit per pixel the cached display gives a shared cell to one pixel's extremes only.
- WaveformDisplay.DisplayTwice: the same two conditions.
- Allocator: memory is modelled as maps from addresses to tags, links and bytes, and not as pointers; chunk, list and area links are kept apart. The area function is a parameter, the address it returned, which may be NULL and otherwise is unused and aligned. Sizes are unbounded: size_t wraps for requests near 2^64, and size_t differences only are cut to 32 bits here, where the code casts them to int. Also left out: the rounding up of an unaligned address, the debug checks and garbage fill, and builds without pools.
- clz.h: leading and trailing zeroes are counted arithmetically; the processor instructions are not modelled.
- FFT: exact reals instead of floats. The cosine table is any table of real parts of a family of roots; FFTInit and rFFTInit, which fill it with cos, are left out, and so is the limit of the tables on M, except where the literal table is looked up.
- FFT: one row. The loop over rows applies the same code to disjoint parts of the array.
- FFT: the last butterfly of each column, which the code takes out of its loop to step the cursors in between, is the last iteration of the loop here.
- FFT: the array holds complex numbers where the code has pairs of floats, so an offset here is half of one there.
- Events: a condition wakes only when it is signalled. QWaitCondition may also wake without reason, and the code, which has no loop around wait, then returns early.
- Events: the handler overload called from inside a handler on another thread, handlers that call lockLang themselves, handlers that never return, receivers, and the application object, destroyed during a call, and the branches in which sender and receiver are the same thread (plain calls) are left out.
- Events: a thread's future work is a number of requests still to be made, chosen when it takes gLangMutex; for SyncFairness a thread may be given new work at any time it is not in postSyncEvent and does not hold gLangMutex. FairRelease assumes strong fairness, of locks as well as of threads; what weak fairness gives is WeakRelease, and WeakNotEnough shows the rest.
- Semaphore: the destructor, and errors of the thread library.
- Waveform: exact reals instead of floats; square root is any function; values converted to short are taken to be in range. The loader's thread, its signals, and a new load while one is running are left out: run is a method that reads the file to its end.
- Strtod: the exponent field and the counters are unbounded integers, so the overflow of an exponent of ten digits or more is not modelled; the value is an exact real, without rounding to a double, and a negative zero is zero.
- vDSP and FFTW back ends, widgets, painting, sockets, files, string parsing, the language's interpreter, and everything else of SuperCollider.
