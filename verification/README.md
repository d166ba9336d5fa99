# A verified model of the AiM SDK core

The SDK drives a processing-in-memory device. User space allocates device memory in 2 MB pools, lays matrices
out, and asks the driver for an operation; the driver compiles the operation into a linear chain of 64-byte DMA
descriptors and submits the chain; the device executes it. This project models the two parts that carry the hard
properties and proves them in Dafny, over mathematical integers.

**Compilers, device and submission**

- `Machine`: the device as a target machine over DRAM, a vector register and 512 accumulators. Command 0x2 loads
  the vector register, 0x4 streams, 0x9 writes the accumulators back and clears them, 0x0 is a barrier or the
  end-of-job marker. `Alu` is the register model of the decoupled opcodes as the repository's reference ALU runs
  it, shown to compute the machine's stream command.
- `DescMem`: descriptor memory as an array of words and the accessors that write it. Every compiler is a method
  with the source's two passes over it, proved to leave exactly one chain, linked, with clear status words.
- `MatmulChains`, `MatmulResults`, `MatmulExact`: `matmul`. `Triples`, `Elementwise`, `ElementwiseResults`,
  `BiasResults`, `ElementwiseHost`: `elewise` and `bias_op`, with a last-writer theorem for overlapping writes, and the
  host jobs around them. `Gemm`, `GemmResults`, `GemmHost`, `GemmEndToEnd`: `gemm` from the host's matrices to the
  host's result.
- `Decoupled`, `DecoupledRuns`, `DecoupledResults`, `DecoupledHost`, `DecoupledEndToEnd`, `DecoupledFit`,
  `DecoupledExact`, `Decoupled8x4Fit`, `Decoupled8x4Exact`: `matmul_decoupled` in both modes, the host's layouts, and
  for which sizes a job is right.
- `ChainWords`: the fields of a chain that running it does not show, high address words and tile configurations.
- `SgTx`, `SgTxResults`, `Ioctl`: chunked submission, its failures, what it does to the device, and whole device calls.
- `Arith`, `Sums`: index arithmetic, sums and dot products.

**Allocator**

- `PoolBits`, `PoolHeap`: bit vectors and the allocator state as a value; `pim_malloc` and `pim_free` as functions
  on it. `PoolInv`, `PoolMalloc`, `PoolFree`, `PoolRoundTrip`, `PoolRuns`, `PoolOverlap`, `PoolMissed`: the invariant
  over live blocks, what each call keeps, whole runs, and two runs that go wrong. `PoolPlacement`: which block a call
  chooses, where the cursors stand after it, and the reuse and adjacency laws that follow.
- `MemPools` and `PimMems`: the program itself, linked pool objects with bit vectors and page arrays, each
  method proved to do what the function of the same name does to the value.

**Both**

- `Programs`: buffers from the allocator, a device call on them, the result. In every state of every guarded
  allocator run, blocks in use that are large enough meet the conditions of every operation, wherever they lie.

## Findings

Each is a theorem that says exactly when the code meets the property.

- `bias_op` is right on every DRAM exactly when there is nothing to do, or the platform's address offset is zero and
  no chunk spills: the aligned row is a multiple of 512 elements, or a row has at most 512, or there is one row
  (`BiasResults.BiasExact`). It is the one operation that does not subtract the offset, which x86 sets from the PCIe BAR.
- The host's `bias_op` job packs rows without aligning them. It agrees with its reference loop exactly when there is
  nothing to do, or the offset is zero and there is one row, or rows of a multiple of 32 elements that are a multiple of
  512 or at most 512 (`ElementwiseHost.BiasHostExact`). For `elewise` packing does not matter
  (`ElementwiseHost.EleHostCorrect`).
- `elewise` and `bias_op` write past the aligned rows of C exactly when there is a row and its aligned length is no
  multiple of 512, and past packed rows exactly when the length itself is none (`ElementwiseResults.EleWritesPast`,
  `BiasResults.BiasWritesPast`). `matmul_decoupled` leaves the rows and whole bank groups the host allocates for C
  exactly when p is no multiple of 32 (`DecoupledResults.DecoupledInside`): the last write-back is 32 rows high like
  the others, while in 8x4 mode the host rounds up to 8.
- `matmul` multiplies correctly on every DRAM exactly when q is a multiple of 32 and r of 512
  (`MatmulExact.MatmulExactSizes`).
- The host's `gemm` job is right exactly when q is a multiple of 32 and r is 512, or above 512 and no multiple of it:
  other q make the last load and stream read past A and B, below 512 columns a zeroed B is handed over, and larger
  multiples of 512 are handed over unchunked (`GemmEndToEnd.GemmHostExact`). The test program takes both sizes as given.
- The host's decoupled job (32x1 build) is right exactly when q is a multiple of 32 and r of 16, or there is a
  single tile of 32 rows and the weight cursor reaches its last block without wrapping
  (`DecoupledExact.DecoupledHostExact`). The test program offers arbitrary sizes.
- The host's decoupled job in 8x4 mode, for p a multiple of 8 and q of 4, is right exactly when q is a multiple of 32
  and r of 16, or there is a single row tile and no wrap, or r is 16 and q is 4, 8 or 16
  (`Decoupled8x4Exact.DecoupledHost8x4Exact`).
- Freeing a large block keeps the allocator sound exactly when the walk along its flags ends in the block or the
  pool behind it is completely free. A block that reuses two pools has the flag set on its last pool too, so it
  can lose that property (`PoolFree.FreeLargeKeepsInv`, `PoolRuns.GuardExact`); `PoolOverlap.UnguardedOverlap` is a
  run of eight calls after which two live blocks overlap.
- The interrupt build of `dma_sg_tx` leaves the final descriptor out exactly when desc_idx is a nonzero multiple of
  255. Memory is right all the same; only the end-of-job marker is missing (`SgTxResults.ChunkedRefinesPolling`,
  `Ioctl.CallMarker`).
- `pl_dma_ioctl` returns success although a wait recorded an error exactly when the chain went out as a single run of
  fewer than 255 descriptors before the last, in time, and its wait recorded one: that branch never reads `err`
  (`SgTxResults.HiddenError`, `Ioctl.PlDmaIoctl`). The handler clears `err` before it completes a wait, so this takes
  an error interrupt after the completion.
- The page search fails exactly when every long enough run of free pages starts below the cursor and reaches it
  (`PoolBits.MissedRun`). Five ordinary calls lead there: two free pages in a row are not found, a second pool is taken,
  and in a window of one pool the request fails (`PoolMissed.MissedReachable`).
- Nonempty requests below 4096 bytes get two pages (`PoolHeap.PagesFor`).

## Assumptions

- The repository holds a register model for the decoupled opcodes only. For the others the machine assumes: with
  the matrix opcode, 0x2 loads 32 values and 0x4 adds, to each of 512 accumulators, the sum of 32 products; with an
  elementwise opcode, 0x2 latches 512 values and 0x4 combines 512 streamed values with them.
- Addresses map linearly from the buffers of a job to the device, and fit the fields they are written to.
- A chain fits descriptor memory, which is 0x400000 bytes or 65536 descriptors. No operation checks it;
  `Ioctl.ChainLength` gives the number of descriptors from the sizes, for `matmul`
  p * (r / 512) * (2 * ceil(q / 32) + 3) + 1.
- A wait that comes back in time and records no error means that its submission was executed up to its last descriptor,
  also the final one that the completion counter leaves out. After any other wait the device may be in any state.
- What a job writes to C does not overlap what it reads from A, B and the bias. For q a multiple of 32, and for decoupled
  sizes that fit, nothing outside the source buffers counts; for other q the last load and stream of `matmul` and
  `gemm` count with the padding to the next multiple of 32. Blocks of the allocator meet it (`Programs.ReadyOnBlocks`)
  as long as C's block has room for what is written. The exact theorems also keep the sources apart from one another.
- Requests to `pim_malloc` are at most 0x7FE00000 bytes, the whole pools below 2^31: `mmap_drv` takes an int, and
  anything above that rounds up to 2^31 bytes or more. `pim_free` is called with the start of a block in use. Running
  out of the window ends the program there, and the run with it.

## Model

| member | source | states |
|---|---|---|
| `Machine.InfoBits` | src/drv_src/pim_math/matmul_decoupled.c:120 | the INFO word built with shifts and or keeps command, opcode and tile configuration apart, and is the number the compilers write |
| `Machine.ExecConcat` | src/drv_src/pl_fops.c:240-268 | running two chains one after the other is running their concatenation |
| `Alu.Registers.Broadcast` | test/src/matmul_decoupled/matmul_decoupled.cpp:107-116 | all banks hold the k'th 32-element vector of the panel, nothing else changes |
| `Alu.Step8x4` | test/src/matmul_decoupled/matmul_decoupled.cpp:141-154 | one lane step adds exactly the next column of one accumulator's dot product, given the rotating counters |
| `Alu.Roll8x4` | test/src/matmul_decoupled/matmul_decoupled.cpp:150-166 | each counter wrap (element, bank, accumulator block, vector block) continues where the schedule stood |
| `Alu.Finish8x4` | test/src/matmul_decoupled/matmul_decoupled.cpp:141-166 | after eight turns every accumulator of a live row has its whole dot product, rows below the tile are untouched |
| `Alu.Registers.Stream8x4` | test/src/matmul_decoupled/matmul_decoupled.cpp:100-167 | for tile heights 8, 16, 24 and 32 the counter schedule computes the machine's 8x4 stream command |
| `Alu.Registers.Stream32x1` | test/src/matmul_decoupled/matmul_decoupled.cpp:169-205 | the 32x1 loops compute the machine's 32x1 stream command |
| `DescMem.CdmaDev.DescWrite` | src/drv_src/dma_lib_kernel.h:245-248 | writes one word of one descriptor and no other word |
| `DescMem.CdmaDev.ConfWrite` | src/drv_src/dma_lib_kernel.h:241-244 | sets one configuration register |
| `DescMem.CdmaDev.WriteDesc` | src/drv_src/pim_math/matmul.c:85-94 | the eight writes append one linked descriptor; no other entry and no status word changes |
| `DescMem.CdmaDev.Arm` | src/drv_src/pim_math/matmul.c:166-170 | DESC_BASE holds the base of descriptor memory, DESC_NUM 64 * desc_idx, HPC_CLR 0 and AIM_WORKING 1; every other register is as before |
| `DescMem.CompiledByPasses` | src/drv_src/pim_math/matmul.c:64-164 | a clear pass and a fill pass over the same descriptors leave exactly the linked chain with clear status words |
| `MatmulChains.BlocksLenClosed` | src/drv_src/pim_math/matmul.c:64-74 | n blocks take n * (2 * ceil(q / 32) + 3) descriptors |
| `MatmulChains.FillBlock` | src/drv_src/pim_math/matmul.c:80-152 | one row and column chunk: load/stream pairs, barrier, write-back, barrier, appended in order |
| `MatmulChains.Matmul` | src/drv_src/pim_math/matmul.c:39-176 | memory ends as exactly the matmul chain, desc_idx and next_desc point at its final descriptor, and so do the registers: DESC_BASE is the first descriptor, DESC_BASE plus DESC_NUM the final one, nothing but the four arming registers is written |
| `MatmulResults.BlocksRun` | src/drv_src/pim_math/matmul.c:78-155 | after n blocks the first 512 * n elements of C are their dot products, the rest of DRAM is as before |
| `MatmulResults.MatmulPadded` | src/drv_src/pim_math/matmul.c:78-155 | for every inner dimension the chain multiplies over q rounded up to whole loads |
| `MatmulResults.MatmulCorrect` | src/drv_src/pim_math/matmul.c:78-155 | for q a multiple of 32 and r of 512, C ends as A times B and nothing else changes, for all p, q, r |
| `MatmulExact.MatmulExactSizes` | src/drv_src/pim_math/matmul.c:59-155 | the product is right on every DRAM if and only if q is a multiple of 32 and r of 512 |
| `Triples.LastWriterIs` | src/drv_src/pim_math/elewise.c:308-352 | an element's last writer is the one no later triple covers |
| `Triples.TripleChainPointwise` | src/drv_src/pim_math/elewise.c:83-132 | in any chain of load, stream and write-back triples an element nobody writes is kept, and one whose last writer reads nothing written before ends as that writer computes it from the initial DRAM |
| `Triples.TripleChainResult` | src/drv_src/pim_math/elewise.c:83-132 | when no triple reads what an earlier one wrote, every element ends as its last writer computes it from the initial DRAM |
| `Elementwise.Elewise` | src/drv_src/pim_math/elewise.c:38-153 | memory ends as exactly the elewise chain, entries linked, counters and registers at the first and the final descriptor |
| `Elementwise.BiasOp` | src/drv_src/pim_math/elewise.c:261-373 | memory ends as exactly the bias chain, chunks outermost, counters and registers at the first and the final descriptor |
| `ElementwiseResults.ElewiseElements` | src/drv_src/pim_math/elewise.c:66-132 | wherever the buffers lie and for every p and r, each element of C whose two sources lie outside C ends as A op B; nothing outside its extent changes |
| `ElementwiseResults.ElewiseCorrect` | src/drv_src/pim_math/elewise.c:66-132 | with C clear of the rows of A and B, every element of the aligned rows ends as A op B at the same offset; nothing outside the extent changes |
| `ElementwiseResults.EleWritesPast` | src/drv_src/pim_math/elewise.c:66-132 | a chunk is written past the aligned rows if and only if there is a row and its aligned length is no multiple of 512 |
| `BiasResults.BiasWriter` | src/drv_src/pim_math/elewise.c:308-352 | the last chunk to write element (q, x) is the one of its own row and column chunk |
| `BiasResults.BiasValue` | src/drv_src/pim_math/elewise.c:289-352 | a chunk that is the last to write a column leaves bias op B there, from the initial DRAM, if C is clear of those two elements |
| `BiasResults.BiasCorrect` | src/drv_src/pim_math/elewise.c:289-352 | without address offset and spill every C[q][x] ends as bias[x] op B[q][x] in the buffers the other operations use, although shorter rows are overwritten by later chunks; nothing outside the extent changes |
| `BiasResults.OffsetIsWrong` | src/drv_src/pim_math/elewise.c:309-333 | with an address offset a concrete DRAM leaves element (0, 0) as it was |
| `BiasResults.SpillIsWrong` | src/drv_src/pim_math/elewise.c:296-352 | outside that condition a concrete DRAM gives a wrong element |
| `BiasResults.BiasExact` | src/drv_src/pim_math/elewise.c:289-352 | right on every DRAM if and only if there is nothing to do, or the offset is zero and no chunk spills into finished columns |
| `BiasResults.BiasWritesPast` | src/drv_src/pim_math/elewise.c:289-352 | a chunk is written past the aligned rows if and only if there is a row and its aligned length is no multiple of 512 |
| `ElementwiseHost.EleAddCpu` | test/src/elewise/elewise.cpp:31-38 | the reference loop adds element by element |
| `ElementwiseHost.EleSubCpu` | test/src/elewise/elewise.cpp:40-47 | the reference loop subtracts B from A element by element |
| `ElementwiseHost.EleMulCpu` | test/src/elewise/elewise.cpp:49-56 | the reference loop multiplies element by element |
| `ElementwiseHost.EleHostCorrect` | test/src/elewise/elewise.cpp:85-175 | packed matrices of every size come out as A + B, A - B or A * B, whichever the opcode names |
| `ElementwiseHost.BiasAddCpu` | test/src/bias_op/bias_op.cpp:31-38 | the reference loop adds to the bias row each packed row |
| `ElementwiseHost.BiasSubCpu` | test/src/bias_op/bias_op.cpp:40-47 | the reference loop subtracts each packed row from the bias row |
| `ElementwiseHost.BiasMulCpu` | test/src/bias_op/bias_op.cpp:49-56 | the reference loop multiplies the bias row with each packed row |
| `ElementwiseHost.BiasHostExact` | test/src/bias_op/bias_op.cpp:86-170 | the job agrees with the results of those three reference loops, for all matrices, if and only if the sizes and the offset fit |
| `Gemm.GemmCompile` | src/drv_src/pim_math/matmul.c:179-399 | memory ends as the multiplication blocks followed by the in-place addition triples and the final descriptor, counters and registers at the first and the final one |
| `GemmResults.AddNoFeedback` | src/drv_src/pim_math/matmul.c:328-377 | the in-place addition never reads an element it has already written |
| `GemmResults.AddedOnce` | src/drv_src/pim_math/matmul.c:328-377 | every element of C is touched by exactly one addition |
| `GemmResults.GemmPadded` | src/drv_src/pim_math/matmul.c:240-377 | for every inner dimension C ends as the product over whole loads plus bias |
| `GemmResults.GemmCorrect` | src/drv_src/pim_math/matmul.c:240-377 | C ends as A times B plus bias and nothing else changes |
| `GemmHost.Pad` | test/src/gemm/gemm.cpp:246-250 | rows widened with zeros, every element at its new place |
| `GemmHost.Align` | test/src/gemm/gemm.cpp:251-265 | the running destination index writes the 512-column chunks one after another |
| `GemmHost.PrepareB` | test/src/gemm/gemm.cpp:231-291 | the B buffer handed over, for every column count |
| `GemmHost.PrepareBias` | test/src/gemm/gemm.cpp:273-293 | the bias buffer handed over, for every column count |
| `GemmHost.Unpad` | test/src/gemm/gemm.cpp:326-332 | the result without its padding columns |
| `GemmEndToEnd.GemmCpu` | test/src/gemm/gemm.cpp:31-74 | the reference loop computes A times B plus bias, row-major |
| `GemmEndToEnd.MatBAt` | test/src/gemm/gemm.cpp:244-265 | element (k, c) of B lies at ((c / 512) * q + k) * 512 + c % 512 of the buffer, padding is zero |
| `GemmEndToEnd.GemmHostCorrect` | test/src/gemm/gemm.cpp:231-332 | for q a multiple of 32 and the column counts handled, pad, align, chain and unpad together give the reference result |
| `GemmEndToEnd.GemmHostExact` | test/src/gemm/gemm.cpp:231-332 | right for all matrices if and only if q is a multiple of 32 and r is 512, or above 512 and no multiple of it |
| `Decoupled.TileShape` | src/drv_src/pim_math/matmul_decoupled.c:94-104 | height and configuration of each row tile; the configuration changes only in the last |
| `Decoupled.FillTile` | src/drv_src/pim_math/matmul_decoupled.c:105-177 | one row tile and column group, with the running A, B and C counters |
| `Decoupled.MatmulDecoupled` | src/drv_src/pim_math/matmul_decoupled.c:37-200 | memory ends as exactly the decoupled chain in the mode the row count calls for, counters and registers at the first and the final descriptor |
| `ChainWords.TilesConfigured` | src/drv_src/pim_math/matmul_decoupled.c:93-188 | in the compiled chain all descriptors of a partial row tile carry the configuration c with 8 * (c + 1) its height, those of a full one 0, and the final descriptor that of the last tile |
| `ChainWords.ChainHighWords` | src/drv_src/pim_math/matmul.c:85-162 | in all five chains loads and streams have the device's high address word at their source, write-backs, barriers and the final descriptor at their destination |
| `DecoupledRuns.WeightCursor` | src/drv_src/pim_math/matmul_decoupled.c:109-111 | on padded sizes the modular B cursor restarts exactly with every row tile |
| `DecoupledRuns.PanelCursor` | src/drv_src/pim_math/matmul_decoupled.c:124-126 | on padded sizes the modular A cursor never wraps and a step's panel stays inside its row tile |
| `DecoupledRuns.TilesRun` | src/drv_src/pim_math/matmul_decoupled.c:93-179 | result blocks are written one after another, each the sums over what the cursors point at, sources intact |
| `DecoupledRuns.ChainRun` | src/drv_src/pim_math/matmul_decoupled.c:93-188 | the same for the whole chain and any q and r, and the marker is written |
| `DecoupledResults.TileSumDot` | src/drv_src/pim_math/matmul_decoupled.c:108-138 | wherever the cursors are right, after k steps an accumulator holds the first 32 * k terms of its dot product |
| `DecoupledResults.DecoupledCorrect` | src/drv_src/pim_math/matmul_decoupled.c:93-179 | for every padded size and both modes the result layout holds A times B, padding rows zero, nothing else changes |
| `DecoupledResults.DecoupledInside` | src/drv_src/pim_math/matmul_decoupled.c:139-160 | nothing outside the rows and bank groups of C is written, on any DRAM, if and only if p is a multiple of 32 or there is no column |
| `DecoupledHost.PanelInverse` | test/src/matmul_decoupled/matmul_decoupled.cpp:363-405 | position, row and column in a panel determine each other, in both layouts |
| `DecoupledHost.PanelLayoutAt` | test/src/matmul_decoupled/matmul_decoupled.cpp:363-405 | every matrix element is at its panel address, rows below the matrix are zero |
| `DecoupledHost.LayoutInput32x1` | test/src/matmul_decoupled/matmul_decoupled.cpp:386-407 | the running index fills the 32x1 layout with zero padding |
| `DecoupledHost.LayoutInput8x4` | test/src/matmul_decoupled/matmul_decoupled.cpp:363-383 | the running index fills the 8x4 layout, for p a multiple of 8 and q of 4 |
| `DecoupledEndToEnd.LayoutWeights` | test/src/matmul_decoupled/matmul_decoupled.cpp:413-435 | the running index fills the weight layout with zero padding |
| `DecoupledEndToEnd.MatMulCpu` | test/src/matmul_decoupled/matmul_decoupled.cpp:225-253 | the reference loop adds A times B to what dst held |
| `DecoupledEndToEnd.DecoupledHostCorrect` | test/src/matmul_decoupled/matmul_decoupled.cpp:363-489 | layouts, chain and read-back give the reference result from a zeroed C, in both modes |
| `DecoupledFit.FitCursors` | src/drv_src/pim_math/matmul_decoupled.c:109-126 | for the sizes that fit, both modular cursors agree with the padded layouts |
| `DecoupledFit.FitBuffers` | src/drv_src/pim_math/matmul_decoupled.c:109-126 | for the sizes that fit nothing outside the padded layouts is read |
| `DecoupledFit.FitRight` | test/src/matmul_decoupled/matmul_decoupled.cpp:386-489 | for the sizes that fit the host reads back the reference result |
| `DecoupledExact.Misfit` | test/src/matmul_decoupled/matmul_decoupled.cpp:386-489 | for every other size a pair of one-element matrices whose product the device loses |
| `DecoupledExact.DecoupledHostExact` | test/src/matmul_decoupled/matmul_decoupled.cpp:386-489 | right for all matrices if and only if the sizes fit |
| `Decoupled8x4Fit.FitCursors8x4` | src/drv_src/pim_math/matmul_decoupled.c:109-126 | for the sizes that fit, both modular cursors agree with the packed panels and the padded weights |
| `Decoupled8x4Fit.FitBuffers8x4` | src/drv_src/pim_math/matmul_decoupled.c:109-126 | for the sizes that fit nothing outside the buffers the host allocates is read |
| `Decoupled8x4Fit.FitRight8x4` | test/src/matmul_decoupled/matmul_decoupled.cpp:363-489 | for those sizes the host reads back the reference result, whatever lies behind a panel |
| `Decoupled8x4Exact.Misfit8x4` | test/src/matmul_decoupled/matmul_decoupled.cpp:363-489 | for every other size a pair of one-element matrices whose product the device loses |
| `Decoupled8x4Exact.DecoupledHost8x4Exact` | test/src/matmul_decoupled/matmul_decoupled.cpp:363-489 | right for all matrices if and only if the sizes fit |
| `SgTx.SgEngine.SubmitAndWait` | src/drv_src/pl_fops.c:252-275 | one submission, then its wait: -EDMA_TX exactly when it timed out, -EDMA_INTR exactly when it came back in time with an engine error that is looked at, else the time left; the device has executed the submission if the wait was good |
| `SgTx.SgEngine.DmaSgTx` | src/drv_src/pl_fops.c:214-292 | whatever the waits return, submissions are a prefix of the plan, stop at the first failure, and success means all of it; the device is what those waits leave. The last wait decides the code: -EDMA_TX exactly when it timed out, -EDMA_INTR exactly when it came back in time with an error and there are 255 descriptors or more before the final one |
| `SgTxResults.VisitedInOrder` | src/drv_src/pl_fops.c:217-292 | n submissions visit descriptors 0 to 255 * n - 1 once and in order; all of them every one but possibly the final |
| `SgTxResults.CoalesceCounts` | src/drv_src/pl_fops.c:218-278 | the completion count is at most 255 and counts each run's descriptors but the final one |
| `SgTxResults.NoEarlyStart` | src/drv_src/pl_fops.c:242-275 | no chunk is submitted before the previous one was seen to complete |
| `SgTxResults.GoodWaitsExecute` | src/drv_src/pl_fops.c:252-290 | as long as the waits are good the device has executed the submissions one after another |
| `SgTxResults.HiddenError` | src/drv_src/pl_fops.c:218-290 | success with a recorded error if and only if the chain was a single run that came back in time with one |
| `SgTxResults.ChunksExecuteChain` | src/drv_src/pl_fops.c:240-292 | executing the chunks is executing that many descriptors as one chain |
| `SgTxResults.FailureExecutesPrefix` | src/drv_src/pl_fops.c:267-274 | before a failing wait exactly whole chunks, a prefix of the chain, have run |
| `SgTxResults.PollingExecutesChain` | src/drv_src/pl_fops.c:297-304 | the polling build executes the whole chain |
| `SgTxResults.ChunkedRefinesPolling` | src/drv_src/pl_fops.c:217-304 | chunked and single-shot submission end in the same memory and registers; the marker differs exactly at nonzero multiples of 255 |
| `Ioctl.PlDmaIoctl` | src/drv_src/pl_fops.c:308-455 | compile, submit, report, for five operations: the chain in memory, DESC_BASE where the first submission starts and DESC_BASE plus DESC_NUM at the final descriptor, the submissions made, the result code; success without a hidden error leaves the operation's result in device memory, with one any state |
| `Ioctl.ChainLength` | src/drv_src/dma_lib_kernel.h:108 | the number of descriptors of each operation from its sizes, and which sizes fit descriptor memory |
| `Ioctl.SuccessfulCall` | src/drv_src/pl_fops.c:339-455 | waits for which the call returns success and hides no error leave the operation's result in device memory |
| `Ioctl.CallMarker` | src/drv_src/pl_fops.c:218-290 | the marker of a successful call, from the sizes alone, for all five operations and wherever the buffers lie |
| `PoolBits.CountPaint` | src/mem_src/pim_mem.c:171-172 | marking n equal pages moves the number of free pages by n |
| `PoolBits.FindRun` | src/mem_src/pim_mem.c:123-141 | the least index of n free pages within the limit, -1 if and only if there is none |
| `PoolBits.FindPages` | src/mem_src/pim_mem.c:159-190 | the least run from the cursor on, else the least that ends before it, else -1 |
| `PoolBits.MissedRun` | src/mem_src/pim_mem.c:159-190 | the search fails if and only if every free run starts below the cursor and reaches it |
| `PoolHeap.PagesFor` | src/mem_src/pim_mem.c:337-338 | enough pages, the least number from 4096 bytes on, two for less, at most a pool up to 2 MB |
| `PoolHeap.PoolsFor` | src/mem_src/pim_mem.c:343-344 | the least number of pools that hold the request |
| `PoolInv.PlaceKeepsInv` | src/mem_src/pim_mem.c:406-415 | marking free pages and noting the size keeps the invariant with the new block live |
| `PoolInv.FreshKeepsInv` | src/mem_src/pim_mem.c:218-256 | an appended pool keeps contiguity and the invariant |
| `PoolInv.LargeFreshKeepsInv` | src/mem_src/pim_mem.c:259-315 | the fresh path for large blocks keeps the invariant |
| `PoolInv.ReuseKeepsInv` | src/mem_src/pim_mem.c:365-372 | the reuse branch keeps the invariant |
| `PoolMalloc.MallocKeepsInv` | src/mem_src/pim_mem.c:318-420 | every call that returns yields a new block of the size asked for, apart from all live ones, invariant kept |
| `PoolMalloc.SmallPlacement` | src/mem_src/pim_mem.c:391-415 | the goto loop ends: in the first accepting pool, at the page the search finds there, else in one appended pool at its first page, out of memory only if the window is full |
| `PoolPlacement.MallocPlacement` | src/mem_src/pim_mem.c:376-415 | up to 2 MB: when the current pool has too few free pages the search starts at the first pool, else at the current one; every pool from there to the answer's refuses, a new pool comes after all of them, and memory runs out only when the window is used up, too |
| `PoolPlacement.FirstPlacement` | src/mem_src/pim_mem.c:326-335 | the first request of all gets the first pages of the first pool |
| `PoolPlacement.MallocMarks` | src/mem_src/pim_mem.c:406-415 | the cursor ends behind the block, the block's size is noted at its first page, the count falls by its pages, and its pool is the current one |
| `PoolPlacement.LargePlacement` | src/mem_src/pim_mem.c:341-375 | above 2 MB: no pool is added exactly when two are wanted and the last two are completely free, which are then taken with both flags set; else all pools are new, in the window or not at all; the current pool, counts, flags and cursors after it |
| `PoolPlacement.FirstLargePlacement` | src/mem_src/pim_mem.c:326-375 | as the first request of all it leaves the pool made first unused |
| `PoolPlacement.FreeSmallEffect` | src/mem_src/pim_mem.c:195-214 | the block's pages are free, the cursor stands at its first page, the count grows by its pages, and nothing else has changed |
| `PoolPlacement.FreeLargeEffect` | src/mem_src/pim_mem.c:461-471 | freeing a large block changes counts and flags only |
| `PoolPlacement.FreeOutside` | src/mem_src/pim_mem.c:438-460 | an address outside every pool is not freed |
| `PoolPlacement.NextFit` | src/mem_src/pim_mem.c:159-176 | free pages at the current pool's cursor are what the next request for as many gets |
| `PoolPlacement.FreedFirst` | src/mem_src/pim_mem.c:195-214 | reuse: a block of the current pool that is freed is what the next request for as many pages gets |
| `PoolPlacement.FreedFound` | src/mem_src/pim_mem.c:380-415 | a freed block that the search comes by keeps the next request for as many pages from adding a pool or going to a later one |
| `PoolPlacement.NextAdjacent` | src/mem_src/pim_mem.c:148-192 | two small requests in a row are neighbours when the pages behind the first are free |
| `PoolFree.FindsBlock` | src/mem_src/pim_mem.c:438-450 | the range test finds exactly the pool of a live block, and the page index its first page |
| `PoolFree.FreeSmallKeepsInv` | src/mem_src/pim_mem.c:448-457 | freeing a small block frees its pages and nothing else, invariant kept |
| `PoolFree.FreeLargeExact` | src/mem_src/pim_mem.c:461-471 | freeing a large block releases exactly its pools if and only if its chain is terminated |
| `PoolFree.FreeLargeKeepsInv` | src/mem_src/pim_mem.c:461-471 | the invariant survives freeing a large block if and only if its chain is terminated |
| `PoolFree.AllFreed` | src/mem_src/pim_mem.c:195-214 | with no live block every pool is completely free |
| `PoolRoundTrip.NewTerminated` | src/mem_src/pim_mem.c:311-313 | a large block ends at the list end and is terminated when it is handed out |
| `PoolRoundTrip.RoundTrip` | src/mem_src/pim_mem.c:318-475 | malloc and immediate free restore every earlier pool's bits, count and flag; added pools end completely free |
| `PoolRoundTrip.FlagsKept` | src/mem_src/pim_mem.c:461-471 | guarded calls leave the flags of large blocks that stay live alone |
| `PoolRuns.GuardExact` | src/mem_src/pim_mem.c:427-475 | from a sound state a call leads to a sound state if and only if it is guarded |
| `PoolRuns.RunSound` | src/mem_src/pim_mem.c:318-475 | every state of every guarded run satisfies the invariant |
| `PoolRuns.RunSafe` | src/mem_src/pim_mem.c:318-475 | in every such state live blocks are disjoint address ranges, large enough, inside the window, and found by the range test |
| `PoolRuns.RunDrained` | src/mem_src/pim_mem.c:195-214 | when a guarded run has freed everything, every pool is completely free |
| `PoolMissed.MissedReachable` | src/mem_src/pim_mem.c:159-190 | a guarded run to a pool whose two free pages the search misses: a second pool is taken, or the request fails |
| `PoolOverlap.UnguardedOverlap` | src/mem_src/pim_mem.c:365-471 | a run with one unguarded free after which two live blocks overlap |
| `MemPools.Strnstr` | src/mem_src/pim_mem.c:123-141 | for any two strings the pointer loops find the least match within the limit, NULL if there is none |
| `MemPools.MemPool.SetBitVector` | src/mem_src/pim_mem.c:148-192 | the pool object changes as the value does, the index is the one found |
| `MemPools.MemPool.ClrBitVector` | src/mem_src/pim_mem.c:195-214 | the pool object changes as the value does |
| `PimMems.PimMem.MmapDrv` | src/mem_src/drv_interface.c:12-27 | hands out the next bytes of the window, fails when it is used up |
| `PimMems.PimMem.AddTail` | src/mem_src/pim_mem.c:109-112 | the new pool is linked at the end, list and values otherwise unchanged |
| `PimMems.PimMem.SearchTail` | src/mem_src/pim_mem.c:346-364 | the tail search succeeds if and only if two pools are wanted and the last two are completely free |
| `PimMems.PimMem.LargePoolAllocation` | src/mem_src/pim_mem.c:259-315 | num pools appended, flags set on all but the last, contiguous |
| `PimMems.PimMem.PimMalloc` | src/mem_src/pim_mem.c:318-420 | over linked pools: pointer, new state and failure are those of the value's operation |
| `PimMems.PimMem.FreeWalk` | src/mem_src/pim_mem.c:461-471 | the walk along the links does to the pools what the value's walk does |
| `PimMems.PimMem.PimFree` | src/mem_src/pim_mem.c:427-475 | over linked pools: new state and failure are those of the value's operation |
| `Programs.ReadyOnBlocks` | test/src/matmul/matmul.cpp:133-222 | in every state of every guarded allocator run, blocks in use that hold the job's buffers meet the conditions of the operation |
| `Programs.CallOnBlocks` | src/drv_src/pl_fops.c:308-455 | a successful call without hidden error on such blocks leaves the operation's result in C |
| `Programs.MatmulOnBlocks` | test/src/matmul/matmul.cpp:133-222 | on three blocks of the sizes asked for, even side by side, C ends as A times B |
| `Programs.GemmOnBlocks` | test/src/gemm/gemm.cpp:231-332 | on blocks of the padded sizes asked for the host reads back the reference result |
| `Programs.DecoupledOnBlocks` | test/src/matmul_decoupled/matmul_decoupled.cpp:317-489 | on blocks of the padded sizes asked for the host reads back the reference result for every size that fits |
| `Programs.Decoupled8x4OnBlocks` | test/src/matmul_decoupled/matmul_decoupled.cpp:317-489 | the same in 8x4 mode, when the pages of C have room for whole tiles |

## Left out

- 32-bit truncation and wrap-around of addresses, counters and sizes: addresses are required to fit.
- The page-table walk of `va_to_pa`: taken as linear on the buffers of one job.
- Floating point and its rounding: elements are integers. The layout index that the decoupled test keeps in a float
  is an integer here, so its loss of precision above 2^24 is not modelled.
- MatmulChains.Matmul: only chains that fit descriptor memory, because a longer one is written past its mapping.
- Gemm.GemmCompile: the same.
- Elementwise.Elewise: the same.
- Elementwise.BiasOp: the same.
- Decoupled.MatmulDecoupled: the same.
- Ioctl.PlDmaIoctl: the same.
- PimMems.PimMem.PimMalloc: only requests that round up to less than 2^31 bytes, because `mmap_drv` takes an int.
- Decoupled8x4Exact.DecoupledHost8x4Exact: only row counts that are multiples of 8 and inner dimensions that are
  multiples of 4, because for others the layout loop writes outside the matrix it draws.
- Decoupled8x4Fit.FitRight8x4: the same sizes, for the same reason.
- DecoupledHost.LayoutInput8x4: the same sizes, for the same reason.
- The host draws its matrices while laying them out; here they are given row-major. The result loop of the decoupled
  test only prints, so reading back is a function (`DecoupledReadBack`).
- What the hardware does with the tile configuration and the high address words; that they are the right ones is
  `ChainWords`.
- The polling build's status loop; its submission is modelled.
- The completion interrupt handler: what a wait returns, and the device after a wait that is not good, are parameters.
- `gemm_bias`, `activation`, `lut_op`, the archived copy of matmul, the memory-copy and timing ioctls.
- `alloc_size` of a page that never started a block is uninitialised in the program and 0 here; no live block depends on it.
- `malloc` failure inside the allocator, `_real_free`, and the build of `mmap_drv` without the device.
- Kernel registration, probing, memory mapping and module code.
