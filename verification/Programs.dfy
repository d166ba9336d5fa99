/**
 The whole stack: buffers from the allocator, a device call on them, the result. In every state of every
 guarded allocator run, any blocks in use that are large enough will do, wherever the allocator put them.
 */
module Programs {
  import opened Machine
  import opened DescMem
  import opened Triples
  import opened SgTx
  import opened SgTxResults
  import opened Ioctl
  import H = PoolHeap
  import P = PoolRuns
  import MC = MatmulChains
  import DC = Decoupled
  import M = MatmulResults
  import G = GemmResults
  import GH = GemmHost
  import GE = GemmEndToEnd
  import R = DecoupledRuns
  import F = DecoupledFit
  import K = Decoupled8x4Fit
  import D = DecoupledHost
  import E = ElementwiseResults
  import B = BiasResults

  /** The blocks a job's buffers are in; only `gemm` has a bias block of its own. */
  datatype Buffers = Buffers(a: H.Block, b: H.Block, bias: H.Block, c: H.Block)

  /** The elements of each buffer that an operation reads or writes. */
  function RoomA(cmd: Command, j: Job): nat {
    match cmd
    case MATMUL => D.Area(j.p, j.q)
    case MATMUL_DECOUPLED => D.Area(j.p, j.q)
    case GEMM => D.Area(j.p, j.q)
    case ELEWISE(op) => E.EleArea(j)
    case BIAS(op) => j.r
  }

  function RoomB(cmd: Command, j: Job): nat {
    match cmd
    case MATMUL => D.Area(j.q, j.r)
    case MATMUL_DECOUPLED => D.Area(j.q, j.r)
    case GEMM => D.Area(j.q, j.r)
    case ELEWISE(op) => E.EleArea(j)
    case BIAS(op) => B.BiasArea(j)
  }

  function RoomC(cmd: Command, j: Job): nat {
    match cmd
    case MATMUL => M.ExtentC(j)
    case MATMUL_DECOUPLED => R.ResultExtent(j)
    case GEMM => M.ExtentC(j)
    case ELEWISE(op) => E.EleExtent(j)
    case BIAS(op) => B.BiasExtent(j)
  }

  /** Block b is in use, starts at va, and its pages hold that many elements. */
  predicate Holds(h: H.Heap, live: set<H.Block>, b: H.Block, va: int, elems: nat) {
    b in live && b.pool < |h.pools| && H.Addr(h, b) == va && 2 * elems <= H.Extent(b)
  }

  /** The job's buffers are in blocks of their own that hold them. */
  predicate OnBlocks(h: H.Heap, live: set<H.Block>, cmd: Command, j: Job, bufs: Buffers) {
    && Holds(h, live, bufs.a, j.srcA, RoomA(cmd, j)) && Holds(h, live, bufs.b, j.srcB, RoomB(cmd, j))
    && Holds(h, live, bufs.c, j.dstC, RoomC(cmd, j)) && bufs.c != bufs.a && bufs.c != bufs.b
    && (cmd.GEMM? ==> Holds(h, live, bufs.bias, j.bias, RoomC(cmd, j)) && bufs.c != bufs.bias)
  }

  /** The sizes, and for `bias_op` the platform, the operation is right for. */
  predicate SizesRight(pf: Platform, cmd: Command, j: Job) {
    match cmd
    case MATMUL => j.q % 32 == 0 && j.r % 512 == 0
    case MATMUL_DECOUPLED => R.TileSizes(j)
    case GEMM => j.q % 32 == 0 && j.r % 512 == 0
    case ELEWISE(op) => IsEle(op)
    case BIAS(op) => IsEle(op) && pf.paOffset == 0 && B.NoSpill(j)
  }

  // ----- addresses

  /** Blocks start on page boundaries of the window, so on even device addresses. */
  lemma BlockEven(pf: Platform, base: int, limit: nat, ss: seq<P.World>, ops: seq<P.Op>, i: nat, b: H.Block, va: int,
                  n: nat)
    requires P.Run(base, limit, ss, ops) && i < |ss| && Holds(ss[i].heap, ss[i].live, b, va, n)
    requires pf.DevAddr(base) % 2 == 0
    ensures pf.DevAddr(va) % 2 == 0
  {
    hide P.Run;
    BlockPage(base, limit, ss, ops, i, b);
  }

  lemma BlockPage(base: int, limit: nat, ss: seq<P.World>, ops: seq<P.Op>, i: nat, b: H.Block)
    requires P.Run(base, limit, ss, ops) && i < |ss| && b in ss[i].live
    ensures b.pool < |ss[i].heap.pools| && (H.Addr(ss[i].heap, b) - base) % 2 == 0
  {
    hide P.Run, H.Addr, H.Extent;
    P.RunSound(base, limit, ss, ops, i);
    P.BlockAddress(ss[i].heap, ss[i].live, b);
  }

  /** Two different blocks in use hold separate buffers. */
  lemma BlocksSeparate(pf: Platform, base: int, limit: nat, ss: seq<P.World>, ops: seq<P.Op>, i: nat,
                       b: H.Block, x: int, m: nat, c: H.Block, y: int, n: nat)
    requires P.Run(base, limit, ss, ops) && i < |ss| && b != c
    requires Holds(ss[i].heap, ss[i].live, b, x, m) && Holds(ss[i].heap, ss[i].live, c, y, n)
    requires pf.DevAddr(base) % 2 == 0
    ensures Separate(pf.DevAddr(x) / 2, m, pf.DevAddr(y) / 2, n)
  {
    BlockEven(pf, base, limit, ss, ops, i, b, x, m);
    BlockEven(pf, base, limit, ss, ops, i, c, y, n);
    P.RunSafe(base, limit, ss, ops, i);
    hide P.Run, H.Addr, H.Extent;
  }

  // ----- jobs

  /** Blocks from the allocator meet the conditions of every operation. */
  lemma ReadyOnBlocks(pf: Platform, base: int, limit: nat, ss: seq<P.World>, ops: seq<P.Op>, i: nat, cmd: Command,
                      j: Job,
                      bufs: Buffers, st: State)
    requires P.Run(base, limit, ss, ops) && i < |ss| && pf.DevAddr(base) % 2 == 0
    requires OnBlocks(ss[i].heap, ss[i].live, cmd, j, bufs) && SizesRight(pf, cmd, j) && st.acc == ZeroAcc()
    ensures Ready(pf, cmd, j, st)
  {
    SourcesApart(pf, base, limit, ss, ops, i, cmd, j, bufs);
    hide P.Run, Holds, RoomA, RoomB, RoomC;
    if cmd.GEMM? {
      BiasApart(pf, base, limit, ss, ops, i, cmd, j, bufs);
    }
    ReadyWhenApart(pf, cmd, j, st);
  }

  /** C apart from A and B. */
  ghost predicate CApart(pf: Platform, cmd: Command, j: Job) {
    && pf.DevAddr(j.srcA) % 2 == pf.DevAddr(j.srcB) % 2 == pf.DevAddr(j.dstC) % 2 == 0
    && Separate(pf.DevAddr(j.dstC) / 2, RoomC(cmd, j), pf.DevAddr(j.srcA) / 2, RoomA(cmd, j))
    && Separate(pf.DevAddr(j.dstC) / 2, RoomC(cmd, j), pf.DevAddr(j.srcB) / 2, RoomB(cmd, j))
  }

  ghost predicate CApartFromBias(pf: Platform, cmd: Command, j: Job) {
    && pf.DevAddr(j.bias) % 2 == 0
    && Separate(pf.DevAddr(j.dstC) / 2, RoomC(cmd, j), pf.DevAddr(j.bias) / 2, RoomC(cmd, j))
  }

  lemma SourcesApart(pf: Platform, base: int, limit: nat, ss: seq<P.World>, ops: seq<P.Op>, i: nat, cmd: Command,
                     j: Job,
                     bufs: Buffers)
    requires P.Run(base, limit, ss, ops) && i < |ss| && pf.DevAddr(base) % 2 == 0
    requires OnBlocks(ss[i].heap, ss[i].live, cmd, j, bufs)
    ensures CApart(pf, cmd, j)
  {
    hide P.Run, Holds, RoomA, RoomB, RoomC, Separate;
    BlockEven(pf, base, limit, ss, ops, i, bufs.a, j.srcA, RoomA(cmd, j));
    BlockEven(pf, base, limit, ss, ops, i, bufs.b, j.srcB, RoomB(cmd, j));
    BlockEven(pf, base, limit, ss, ops, i, bufs.c, j.dstC, RoomC(cmd, j));
    BlocksSeparate(pf, base, limit, ss, ops, i, bufs.c, j.dstC, RoomC(cmd, j), bufs.a, j.srcA, RoomA(cmd, j));
    BlocksSeparate(pf, base, limit, ss, ops, i, bufs.c, j.dstC, RoomC(cmd, j), bufs.b, j.srcB, RoomB(cmd, j));
  }

  lemma BiasApart(pf: Platform, base: int, limit: nat, ss: seq<P.World>, ops: seq<P.Op>, i: nat, cmd: Command, j: Job,
                  bufs: Buffers)
    requires P.Run(base, limit, ss, ops) && i < |ss| && pf.DevAddr(base) % 2 == 0
    requires cmd.GEMM? && OnBlocks(ss[i].heap, ss[i].live, cmd, j, bufs)
    ensures CApartFromBias(pf, cmd, j)
  {
    hide P.Run, Holds, RoomA, RoomB, RoomC, Separate;
    BlockEven(pf, base, limit, ss, ops, i, bufs.bias, j.bias, RoomC(cmd, j));
    BlocksSeparate(pf, base, limit, ss, ops, i, bufs.c, j.dstC, RoomC(cmd, j), bufs.bias, j.bias, RoomC(cmd, j));
  }

  lemma ReadyWhenApart(pf: Platform, cmd: Command, j: Job, st: State)
    requires CApart(pf, cmd, j) && (cmd.GEMM? ==> CApartFromBias(pf, cmd, j))
    requires SizesRight(pf, cmd, j) && st.acc == ZeroAcc()
    ensures Ready(pf, cmd, j, st)
  {
    match cmd
    case MATMUL => ProductBuffers(pf, MATMUL, j);
    case MATMUL_DECOUPLED => TileBuffers(pf, j);
    case GEMM => ProductBuffers(pf, GEMM, j);
    case ELEWISE(op) => ElementBuffers(pf, op, j);
    case BIAS(op) => RowBuffers(pf, op, j);
  }

  lemma ProductBuffers(pf: Platform, cmd: Command, j: Job)
    requires (cmd.MATMUL? || cmd.GEMM?) && CApart(pf, cmd, j) && j.q % 32 == 0 && j.r % 512 == 0
    ensures M.MatmulBuffers(pf, j)
    ensures cmd.GEMM? && CApartFromBias(pf, cmd, j) ==> G.GemmBuffers(pf, j)
  {
    ExactExtents(j);
    hide M.ExtentA, M.ExtentB, M.ExtentC, D.Area;
  }

  lemma ExactExtents(j: Job)
    requires j.q % 32 == 0 && j.r % 512 == 0
    ensures M.ExtentA(j) == D.Area(j.p, j.q) && M.ExtentB(j) == D.Area(j.q, j.r)
  {
    M.PaddedQBound(j);
    WholeColumns(j);
    hide M.PaddedQ, MC.ColChunks;
    assert (MC.ColChunks(j) * j.q) * 512 == j.q * (512 * MC.ColChunks(j));
  }

  lemma WholeColumns(j: Job)
    requires j.r % 512 == 0
    ensures j.r == 512 * MC.ColChunks(j)
  {
  }

  lemma TileBuffers(pf: Platform, j: Job)
    requires CApart(pf, MATMUL_DECOUPLED, j) && R.TileSizes(j)
    ensures R.DecoupledBuffers(pf, j)
  {
    R.PaddedExtents(j);
    hide R.PanelExtent, R.WeightExtent, R.ResultExtent, R.TileSizes;
  }

  lemma ElementBuffers(pf: Platform, op: nat, j: Job)
    requires CApart(pf, ELEWISE(op), j)
    ensures E.EleBuffers(pf, j)
  {
    hide E.EleArea, E.EleExtent;
  }

  lemma RowBuffers(pf: Platform, op: nat, j: Job)
    requires CApart(pf, BIAS(op), j)
    ensures B.BiasBuffers(pf, j)
  {
    hide B.BiasArea, B.BiasExtent;
  }

  /**
   The whole stack: a job on blocks of a guarded allocator run, compiled and submitted, with waits for which the
   driver returns success and hides no error, leaves the operation's result in the memory of block c.
   */
  lemma CallOnBlocks(pf: Platform, base: int, limit: nat, ss: seq<P.World>, ops: seq<P.Op>, i: nat, cmd: Command,
                     j: Job,
                     bufs: Buffers, w0: seq<int>, w: seq<int>, waits: nat -> Wait, broken: nat -> State, first: nat,
                     st: State)
    requires P.Run(base, limit, ss, ops) && i < |ss| && pf.DevAddr(base) % 2 == 0
    requires OnBlocks(ss[i].heap, ss[i].live, cmd, j, bufs) && SizesRight(pf, cmd, j) && st.acc == ZeroAcc()
    requires Compiled(w0, w, pf, ChainOf(pf, cmd, j)) && |ChainOf(pf, cmd, j)| > 0
    requires var desc_idx := |ChainOf(pf, cmd, j)| - 1;
      AllDone(Verdicts(waits, first, desc_idx), |PlanOf(pf, desc_idx)|) && !ErrorHidden(desc_idx, waits(first))
    ensures var plan := PlanOf(pf, |ChainOf(pf, cmd, j)| - 1);
      Outcome(pf, cmd, j, st.dram, DeviceAfter(pf, w, plan, waits, broken, first, |plan|, st).dram)
  {
    hide *;
    ReadyOnBlocks(pf, base, limit, ss, ops, i, cmd, j, bufs, st);
    SuccessfulCall(pf, w0, w, cmd, j, waits, broken, first, st);
  }

  // ----- host programs

  /** The pointer to a block. */
  function Ptr(h: H.Heap, b: H.Block): int {
    if b.pool < |h.pools| then H.Addr(h, b) else 0
  }

  /** A block that was asked for with enough bytes holds a buffer. */
  lemma AskedFor(base: int, limit: nat, ss: seq<P.World>, ops: seq<P.Op>, i: nat, b: H.Block, elems: nat)
    requires P.Run(base, limit, ss, ops) && i < |ss| && b in ss[i].live && 2 * elems <= b.size
    ensures Holds(ss[i].heap, ss[i].live, b, Ptr(ss[i].heap, b), elems)
  {
    P.RunSafe(base, limit, ss, ops, i);
    hide P.Run, H.Addr, H.Extent;
  }

  /** Blocks of the sizes `matmul.cpp` and `gemm.cpp` ask for; the job is on their pointers. */
  ghost predicate ProductBlocks(w: P.World, j: Job, bufs: Buffers, withBias: bool) {
    && bufs.a in w.live && bufs.b in w.live && bufs.c in w.live && bufs.c != bufs.a && bufs.c != bufs.b
    && 2 * D.Area(j.p, j.q) <= bufs.a.size && 2 * D.Area(j.q, j.r) <= bufs.b.size && 2 * D.Area(j.p, j.r) <= bufs.c.size
    && j.srcA == Ptr(w.heap, bufs.a) && j.srcB == Ptr(w.heap, bufs.b) && j.dstC == Ptr(w.heap, bufs.c)
    && (withBias ==>
          && bufs.bias in w.live && bufs.c != bufs.bias && 2 * D.Area(j.p, j.r) <= bufs.bias.size
          && j.bias == Ptr(w.heap, bufs.bias))
  }

  lemma ProductOnBlocks(base: int, limit: nat, ss: seq<P.World>, ops: seq<P.Op>, i: nat, cmd: Command, j: Job,
                        bufs: Buffers)
    requires P.Run(base, limit, ss, ops) && i < |ss| && (cmd.MATMUL? || cmd.GEMM?)
    requires ProductBlocks(ss[i], j, bufs, cmd.GEMM?)
    ensures OnBlocks(ss[i].heap, ss[i].live, cmd, j, bufs)
  {
    hide P.Run, Holds, Ptr, D.Area;
    AskedFor(base, limit, ss, ops, i, bufs.a, RoomA(cmd, j));
    AskedFor(base, limit, ss, ops, i, bufs.b, RoomB(cmd, j));
    ResultRoom(j);
    AskedFor(base, limit, ss, ops, i, bufs.c, RoomC(cmd, j));
    if cmd.GEMM? {
      AskedFor(base, limit, ss, ops, i, bufs.bias, RoomC(cmd, j));
    }
  }

  lemma ResultRoom(j: Job)
    ensures M.ExtentC(j) == D.Area(j.p, j.r)
  {
  }

  /** `matmul` on any three blocks in use of the sizes its host asks for, even side by side. */
  lemma MatmulOnBlocks(pf: Platform, base: int, limit: nat, ss: seq<P.World>, ops: seq<P.Op>, i: nat, j: Job,
                       bufs: Buffers,
                       st: State)
    requires P.Run(base, limit, ss, ops) && i < |ss| && pf.DevAddr(base) % 2 == 0
    requires ProductBlocks(ss[i], j, bufs, false) && j.q % 32 == 0 && j.r % 512 == 0 && st.acc == ZeroAcc()
    ensures M.MatmulRight(pf, j, st)
  {
    hide P.Run, M.MatmulBuffers, M.MatmulRight, OnBlocks, ProductBlocks;
    ProductOnBlocks(base, limit, ss, ops, i, MATMUL, j, bufs);
    ReadyOnBlocks(pf, base, limit, ss, ops, i, MATMUL, j, bufs, st);
    M.MatmulCorrect(pf, j, st);
  }

  /** The host's `gemm` job on any blocks in use of the padded sizes it asks for reads back the reference result. */
  lemma GemmOnBlocks(pf: Platform, base: int, limit: nat, ss: seq<P.World>, ops: seq<P.Op>, i: nat, j: Job,
                     bufs: Buffers,
                     r: nat, srcA: seq<int>, srcB: seq<int>, bias: seq<int>, st: State)
    requires P.Run(base, limit, ss, ops) && i < |ss| && pf.DevAddr(base) % 2 == 0
    requires ProductBlocks(ss[i], j, bufs, true) && r > 0 && j.r == GH.PadSize(r)
    requires j.q % 32 == 0 && GE.HostColumns(r)
    requires GE.HostInput(j, r, srcA, srcB, bias) && GE.HostLoaded(pf, j, r, srcA, srcB, bias, st)
    ensures GE.HostRight(pf, j, r, srcA, srcB, bias, st)
  {
    hide P.Run, G.GemmBuffers, OnBlocks, ProductBlocks, GH.PadSize, GE.HostColumns, GE.HostInput, GE.HostRight,
         GE.Loaded;
    GH.PadSizeFacts(r);
    ProductOnBlocks(base, limit, ss, ops, i, GEMM, j, bufs);
    ReadyOnBlocks(pf, base, limit, ss, ops, i, GEMM, j, bufs, st);
    GE.GemmHostCorrect(pf, j, r, srcA, srcB, bias, st);
  }

  /**
   The host's decoupled job (whole tiles of rows) on blocks of the padded sizes it asks for reads back the
   reference result, for every size that fits.
   */
  lemma DecoupledOnBlocks(pf: Platform, base: int, limit: nat, ss: seq<P.World>, ops: seq<P.Op>, i: nat, j: Job,
                          bufs: Buffers, rows: nat, srcA: seq<int>, srcB: seq<int>, st: State)
    requires P.Run(base, limit, ss, ops) && i < |ss| && pf.DevAddr(base) % 2 == 0
    requires OnBlocks(ss[i].heap, ss[i].live, MATMUL_DECOUPLED, F.Padded(j), bufs)
    requires F.HostSizes(j, rows) && F.HostFits(j) && F.LaidOut(pf, j, rows, srcA, srcB, st)
    ensures F.JobRight(pf, j, rows, srcA, srcB, st)
  {
    hide *;
    SourcesApart(pf, base, limit, ss, ops, i, MATMUL_DECOUPLED, F.Padded(j), bufs);
    HostApart(pf, j);
    SomeColumns(j, rows);
    F.SizesFacts(j, rows);
    F.FitBuffers(pf, j);
    F.FitRight(pf, j, rows, srcA, srcB, st);
  }

  /** The same for the 8x4 mode, when the pages of block c have room for whole tiles. */
  lemma Decoupled8x4OnBlocks(pf: Platform, base: int, limit: nat, ss: seq<P.World>, ops: seq<P.Op>, i: nat, j: Job,
                             bufs: Buffers, srcA: seq<int>, srcB: seq<int>, st: State)
    requires P.Run(base, limit, ss, ops) && i < |ss| && pf.DevAddr(base) % 2 == 0
    requires OnBlocks(ss[i].heap, ss[i].live, MATMUL_DECOUPLED, F.Padded(j), bufs)
    requires K.Sizes8x4(j) && K.Fits8x4(j) && K.LaidOut8x4(pf, j, srcA, srcB, st)
    ensures F.JobRight(pf, j, j.p, srcA, srcB, st)
  {
    hide *;
    SourcesApart(pf, base, limit, ss, ops, i, MATMUL_DECOUPLED, F.Padded(j), bufs);
    HostApart(pf, j);
    K.FitBuffers8x4(pf, j);
    K.FitRight8x4(pf, j, srcA, srcB, st);
  }

  lemma SomeColumns(j: Job, rows: nat)
    requires F.HostSizes(j, rows)
    ensures j.r > 0
  {
  }

  lemma HostApart(pf: Platform, j: Job)
    requires CApart(pf, MATMUL_DECOUPLED, F.Padded(j))
    ensures F.HostBuffers(pf, j)
  {
    F.SameBuffers(pf, j);
    F.SameCounts(j);
    PaddedHeight(j);
    hide F.Padded, DC.NumTileBlocks, D.Area;
  }

  lemma PaddedHeight(j: Job)
    ensures F.Padded(j).p == j.p
  {
  }
}
