/**
 A whole device call, `pl_dma_ioctl`: compile the job's chain, submit it, report. What the device memory
 holds after a call that succeeds follows from the results about the chains and about submission.
 */
module Ioctl {
  import opened Arith
  import opened Machine
  import opened DescMem
  import opened MatmulChains
  import opened Triples
  import opened Elementwise
  import opened Gemm
  import opened Decoupled
  import opened SgTx
  import opened SgTxResults
  import M = MatmulResults
  import G = GemmResults
  import R = DecoupledRuns
  import D = DecoupledResults
  import E = ElementwiseResults
  import B = BiasResults

  const SUCCESS: int := 0

  datatype Command = MATMUL | MATMUL_DECOUPLED | GEMM | ELEWISE(op: nat) | BIAS(op: nat) {
    /** The elementwise commands stand for one of the three elementwise opcodes. */
    predicate Known() {
      (ELEWISE? || BIAS?) ==> IsEle(op)
    }
  }

  function ChainOf(pf: Platform, cmd: Command, j: Job): seq<Desc> {
    match cmd
    case MATMUL => MatmulChain(pf, j, OPCODE_MAT_MUL)
    case MATMUL_DECOUPLED => DecoupledChain(pf, j, OPCODE_MAT_MUL_DECOUPLED_32x1)
    case GEMM => GemmChain(pf, j, OPCODE_MAT_MUL)
    case ELEWISE(op) => EleChain(pf, j, op)
    case BIAS(op) => BiasChain(pf, j, op)
  }

  /** The bytes of descriptor memory. */
  const DESC_MEM_LEN: nat := 0x400000

  /** The number of descriptors of a job, from its sizes. */
  function ChainSize(cmd: Command, j: Job): int {
    match cmd
    case MATMUL => j.p * (j.r / 512) * (2 * Ceil(j.q, 32) + 3) + 1
    case MATMUL_DECOUPLED => Ceil(j.p, 32) * Ceil(j.r, 16) * (2 * Ceil(j.q, 32) + 3) + 1
    case GEMM => j.p * (j.r / 512) * (2 * Ceil(j.q, 32) + 3) + 3 * (j.p * Ceil(j.r, 512)) + 1
    case ELEWISE(op) => 3 * (j.p * Ceil(j.r, 512)) + 1
    case BIAS(op) => 3 * (Ceil(j.r, 512) * j.q) + 1
  }

  /** A job fits descriptor memory exactly when its sizes make at most 65536 descriptors; no operation checks it. */
  lemma ChainLength(pf: Platform, cmd: Command, j: Job)
    ensures |ChainOf(pf, cmd, j)| == ChainSize(cmd, j)
    ensures 16 * |ChainOf(pf, cmd, j)| <= DESC_MEM_LEN / 4 <==> ChainSize(cmd, j) <= 65536
  {
    hide MatmulChain, DecoupledChain, GemmChain, EleChain, BiasChain, Ceil, BlocksLen;
    match cmd
    case MATMUL => BlocksLenClosed(j, j.p * ColChunks(j));
    case MATMUL_DECOUPLED => BlocksLenClosed(j, NumTileBlocks(j));
    case GEMM => BlocksLenClosed(j, j.p * ColChunks(j));
    case ELEWISE(op) =>
    case BIAS(op) =>
  }

  method CompileJob(dev: CdmaDev, cmd: Command, j: Job) returns (desc_idx: nat, next_desc: int)
    requires 16 * |ChainOf(dev.platform, cmd, j)| <= dev.dma_desc.Length
    modifies dev`config_reg, dev.dma_desc
    ensures Compiled(old(dev.dma_desc[..]), dev.dma_desc[..], dev.platform, ChainOf(dev.platform, cmd, j))
    ensures desc_idx + 1 == |ChainOf(dev.platform, cmd, j)| &&
      next_desc == dev.platform.DescMemBase() + 0x40 * (desc_idx + 1)
    ensures Reg(dev.config_reg, CONF_OFFSET_DESC_BASE) == PlanOf(dev.platform, desc_idx)[0].start
    ensures Reg(dev.config_reg, CONF_OFFSET_DESC_BASE) + Reg(dev.config_reg, CONF_OFFSET_DESC_NUM) == next_desc - 0x40
    ensures Reg(dev.config_reg, CONF_OFFSET_HPC_CLR) == 0 && Reg(dev.config_reg, CONF_OFFSET_AIM_WORKING) == 1
    ensures OnlyArming(old(dev.config_reg), dev.config_reg)
  {
    hide Compiled, Reg, OnlyArming, MatmulChain, DecoupledChain, GemmChain, EleChain, BiasChain;
    match cmd {
      case MATMUL => desc_idx, next_desc := Matmul(dev, j, OPCODE_MAT_MUL);
      case MATMUL_DECOUPLED => desc_idx, next_desc := MatmulDecoupled(dev, j, OPCODE_MAT_MUL_DECOUPLED_32x1);
      case GEMM => desc_idx, next_desc := GemmCompile(dev, j, OPCODE_MAT_MUL);
      case ELEWISE(op) => desc_idx, next_desc := Elewise(dev, j, op);
      case BIAS(op) => desc_idx, next_desc := BiasOp(dev, j, op);
    }
    PlanStart(dev.platform, desc_idx);
  }

  /** The first submission starts at the first descriptor. */
  lemma PlanStart(pf: Platform, desc_idx: nat)
    ensures PlanOf(pf, desc_idx)[0].start == pf.DescMemBase()
  {
    if desc_idx >= CDMA_MAX_COALESCE {
      ChunkRun(pf.DescMemBase(), desc_idx, pf.DescMemBase() + 0x40 * (desc_idx + 1), 0);
    }
  }

  // ----- what a successful call leaves in memory

  /** The buffers are placed and sized as the operation needs, and the device is idle. */
  ghost predicate Ready(pf: Platform, cmd: Command, j: Job, st: State) {
    match cmd
    case MATMUL => M.MatmulBuffers(pf, j) && st.acc == ZeroAcc() && j.q % 32 == 0 && j.r % 512 == 0
    case MATMUL_DECOUPLED => R.DecoupledBuffers(pf, j) && st.acc == ZeroAcc() && R.TileSizes(j)
    case GEMM => G.GemmBuffers(pf, j) && st.acc == ZeroAcc() && j.q % 32 == 0 && j.r % 512 == 0
    case ELEWISE(op) => IsEle(op) && E.EleBuffers(pf, j)
    case BIAS(op) => IsEle(op) && B.BiasBuffers(pf, j) && pf.paOffset == 0 && B.NoSpill(j)
  }

  /** What the operation promises about memory. */
  ghost predicate Outcome(pf: Platform, cmd: Command, j: Job, m: Dram, m': Dram) {
    match cmd
    case MATMUL => M.ProductInC(pf, j, j.q, m, m')
    case MATMUL_DECOUPLED => D.DecoupledOutcome(pf, j, m, m')
    case GEMM => G.GemmInC(pf, j, j.q, m, m')
    case ELEWISE(op) => E.EleOutcome(pf, j, op, m, m')
    case BIAS(op) => B.BiasOutcome(pf, j, op, m, m')
  }

  /** The number of a job's final descriptor. */
  function DescIdx(pf: Platform, cmd: Command, j: Job): nat {
    if ChainOf(pf, cmd, j) == [] then 0 else |ChainOf(pf, cmd, j)| - 1
  }

  /**
   Compile, submit (interrupt build), report. Success means that every submission of the plan was made and
   that its wait came back in time; unless an error went unseen, the operation's result is then in memory.
   */
  method PlDmaIoctl(dev: CdmaDev, eng: SgEngine, cmd: Command, j: Job) returns (ret: int)
    requires eng.platform == dev.platform
    requires 16 * |ChainOf(dev.platform, cmd, j)| <= dev.dma_desc.Length
    modifies dev`config_reg, dev.dma_desc, eng
    ensures Compiled(old(dev.dma_desc[..]), dev.dma_desc[..], dev.platform, ChainOf(dev.platform, cmd, j))
    ensures DescIdx(dev.platform, cmd, j) + 1 == |ChainOf(dev.platform, cmd, j)|
    ensures Reg(dev.config_reg, CONF_OFFSET_DESC_BASE) ==
      PlanOf(dev.platform, DescIdx(dev.platform, cmd, j))[0].start
    ensures Reg(dev.config_reg, CONF_OFFSET_DESC_BASE) + Reg(dev.config_reg, CONF_OFFSET_DESC_NUM) ==
      dev.platform.DescMemBase() + 0x40 * DescIdx(dev.platform, cmd, j)
    ensures Reg(dev.config_reg, CONF_OFFSET_HPC_CLR) == 0 && Reg(dev.config_reg, CONF_OFFSET_AIM_WORKING) == 1
    ensures OnlyArming(old(dev.config_reg), dev.config_reg)
    ensures var desc_idx := DescIdx(dev.platform, cmd, j);
      var plan, n, verdicts := PlanOf(dev.platform, desc_idx), eng.waited - old(eng.waited),
        Verdicts(eng.waits, old(eng.waited), desc_idx);
      && 0 < n <= |plan| && eng.log == old(eng.log) + Trace(plan, verdicts, n) && AllDone(verdicts, n - 1)
      && (ret == SUCCESS || ret == -EDMA_TX) && (ret == SUCCESS <==> n == |plan| && AllDone(verdicts, n))
      && eng.device == DeviceAfter(dev.platform, dev.dma_desc[..], plan, eng.waits, eng.broken, old(eng.waited), n,
         old(eng.device))
    ensures ret == SUCCESS && Ready(dev.platform, cmd, j, old(eng.device))
            && !ErrorHidden(DescIdx(dev.platform, cmd, j), eng.waits(old(eng.waited))) ==>
      Outcome(dev.platform, cmd, j, old(eng.device).dram, eng.device.dram)
    ensures ErrorHidden(DescIdx(dev.platform, cmd, j), eng.waits(old(eng.waited))) ==>
      ret == SUCCESS && eng.device == eng.broken(old(eng.waited))
  {
    hide Compiled, Trace, Plan, ChainOf, DeviceAfter, Ready, Outcome, Reg, OnlyArming;
    ghost var waited0, device0, words0 := eng.waited, eng.device, dev.dma_desc[..];
    var desc_idx, next_desc := CompileJob(dev, cmd, j);
    var tx := eng.DmaSgTx(dev.dma_desc[..], desc_idx, next_desc);
    ret := if tx < 0 then -EDMA_TX else SUCCESS;
    LastVerdict(eng.waits, waited0, desc_idx, eng.waited - waited0);
    if ErrorHidden(desc_idx, eng.waits(waited0)) {
      HiddenBreaks(dev.platform, dev.dma_desc[..], desc_idx, eng.waits, eng.broken, waited0, device0);
    } else if ret == SUCCESS && Ready(dev.platform, cmd, j, device0) {
      SuccessfulCall(dev.platform, words0, dev.dma_desc[..], cmd, j, eng.waits, eng.broken, waited0, device0);
    }
  }

  lemma LastVerdict(waits: nat -> Wait, first: nat, desc_idx: nat, n: nat)
    requires n > 0 && AllDone(Verdicts(waits, first, desc_idx), n - 1)
    ensures Verdicts(waits, first, desc_idx)(n - 1) >= 0 <==> AllDone(Verdicts(waits, first, desc_idx), n)
  {
    VerdictSign(waits(first + (n - 1)), desc_idx >= CDMA_MAX_COALESCE);
  }

  lemma ChainEnds(pf: Platform, cmd: Command, j: Job)
    requires cmd.Known()
    ensures EndsWithMarker(pf, ChainOf(pf, cmd, j))
  {
    hide MatmulChain, DecoupledChain, GemmChain, EleChain, BiasChain, EndsWithMarker;
    match cmd
    case MATMUL => MatmulEnds(pf, j);
    case MATMUL_DECOUPLED => DecoupledEnds(pf, j);
    case GEMM => GemmEnds(pf, j);
    case ELEWISE(op) => EleEnds(pf, j, op);
    case BIAS(op) => BiasEnds(pf, j, op);
  }

  lemma MarkerAppended(pf: Platform, ds: seq<Desc>, d: Desc, opcode: nat, config: nat)
    requires d.info == Info(0x0, opcode, config) && opcode < 0x40000 && d.da == pf.HpcClearAddr()
    ensures EndsWithMarker(pf, ds + [d])
  {
    InfoFields(0x0, opcode, config);
  }

  lemma MatmulEnds(pf: Platform, j: Job)
    ensures EndsWithMarker(pf, MatmulChain(pf, j, OPCODE_MAT_MUL))
  {
    hide Blocks, EndsWithMarker;
    MarkerAppended(pf, Blocks(pf, j, OPCODE_MAT_MUL, j.p * ColChunks(j)), Final(pf, 0, OPCODE_MAT_MUL, 0),
      OPCODE_MAT_MUL, 0);
  }

  lemma DecoupledEnds(pf: Platform, j: Job)
    ensures EndsWithMarker(pf, DecoupledChain(pf, j, OPCODE_MAT_MUL_DECOUPLED_32x1))
  {
    assert NumTileBlocks(j) > 0 ==> BankGroups(j) > 0;
    hide TileBlocks, EndsWithMarker, LastConfig, NumTileBlocks, BankGroups;
    var op := Mode(j, OPCODE_MAT_MUL_DECOUPLED_32x1);
    MarkerAppended(pf, TileBlocks(pf, j, op, NumTileBlocks(j)), Final(pf, 0, op, LastConfig(j)), op, LastConfig(j));
  }

  lemma GemmEnds(pf: Platform, j: Job)
    ensures EndsWithMarker(pf, GemmChain(pf, j, OPCODE_MAT_MUL))
  {
    hide Blocks, TripleChain, AddTris, EndsWithMarker;
    MarkerAppended(pf, Blocks(pf, j, OPCODE_MAT_MUL, j.p * ColChunks(j)) +
      TripleChain(pf, OPCODE_ELE_ADD, AddTris(pf, j)),
                   EleFinal(pf, OPCODE_ELE_ADD), OPCODE_ELE_ADD, 0);
  }

  lemma EleEnds(pf: Platform, j: Job, op: nat)
    requires IsEle(op)
    ensures EndsWithMarker(pf, EleChain(pf, j, op))
  {
    hide TripleChain, EleTris, EndsWithMarker;
    MarkerAppended(pf, TripleChain(pf, op, EleTris(pf, j)), EleFinal(pf, op), op, 0);
  }

  lemma BiasEnds(pf: Platform, j: Job, op: nat)
    requires IsEle(op)
    ensures EndsWithMarker(pf, BiasChain(pf, j, op))
  {
    hide TripleChain, BiasTris, EndsWithMarker;
    MarkerAppended(pf, TripleChain(pf, op, BiasTris(pf, j)), EleFinal(pf, op), op, 0);
  }

  lemma ChainOutcome(pf: Platform, cmd: Command, j: Job, st: State)
    requires Ready(pf, cmd, j, st)
    ensures Outcome(pf, cmd, j, st.dram, Exec(pf, ChainOf(pf, cmd, j), st).dram)
  {
    hide Exec, MatmulChain, DecoupledChain, GemmChain, EleChain, BiasChain, B.NoSpill;
    hide R.DecoupledBuffers, D.DecoupledOutcome, R.TileSizes, G.GemmBuffers, G.GemmInC;
    hide M.MatmulBuffers, M.ProductInC, E.EleBuffers, E.EleOutcome, B.BiasBuffers, B.BiasOutcome;
    match cmd
    case MATMUL => M.MatmulCorrect(pf, j, st);
    case MATMUL_DECOUPLED => D.DecoupledCorrect(pf, j, st);
    case GEMM => G.GemmCorrect(pf, j, st);
    case ELEWISE(op) => E.ElewiseCorrect(pf, j, op, st);
    case BIAS(op) => B.BiasCorrect(pf, j, op, st);
  }

  /**
   When the waits of a call are such that the driver returns success, and no error went unseen, the result of
   the operation is in device memory: for every operation, for every number of descriptors, and also when the
   final descriptor was left out.
   */
  lemma SuccessfulCall(pf: Platform, w0: seq<int>, w: seq<int>, cmd: Command, j: Job, waits: nat -> Wait,
                       broken: nat -> State, first: nat, st: State)
    requires Compiled(w0, w, pf, ChainOf(pf, cmd, j)) && Ready(pf, cmd, j, st) && |ChainOf(pf, cmd, j)| > 0
    requires var desc_idx := |ChainOf(pf, cmd, j)| - 1;
      AllDone(Verdicts(waits, first, desc_idx), |PlanOf(pf, desc_idx)|) && !ErrorHidden(desc_idx, waits(first))
    ensures var plan := PlanOf(pf, |ChainOf(pf, cmd, j)| - 1);
      Outcome(pf, cmd, j, st.dram, DeviceAfter(pf, w, plan, waits, broken, first, |plan|, st).dram)
  {
    hide *;
    var desc_idx := |ChainOf(pf, cmd, j)| - 1;
    SuccessIsGood(pf, desc_idx, waits, first);
    GoodWaitsExecute(pf, w, PlanOf(pf, desc_idx), waits, broken, first, |PlanOf(pf, desc_idx)|, st);
    ExecutedOutcome(pf, w0, w, cmd, j, st);
  }

  lemma ExecutedOutcome(pf: Platform, w0: seq<int>, w: seq<int>, cmd: Command, j: Job, st: State)
    requires Compiled(w0, w, pf, ChainOf(pf, cmd, j)) && Ready(pf, cmd, j, st) && |ChainOf(pf, cmd, j)| > 0
    ensures var plan := PlanOf(pf, |ChainOf(pf, cmd, j)| - 1);
      Outcome(pf, cmd, j, st.dram, Executed(pf, w, plan, |plan|, st).dram)
  {
    assert cmd.Known();
    hide *;
    ChainEnds(pf, cmd, j);
    ChainOutcome(pf, cmd, j, st);
    ChunkedRefinesPolling(pf, w0, w, ChainOf(pf, cmd, j), st);
    PollingExecutesChain(pf, w0, w, ChainOf(pf, cmd, j), st);
  }

  // ----- the end-of-job marker

  lemma {:induction false} PairsSilent(pf: Platform, j: Job, p: nat, r: nat, n: nat)
    ensures AllSilent(pf, Pairs(pf, j, OPCODE_MAT_MUL, p, r, n))
  {
    hide LoadA, StreamB, Silent;
    if n == 0 {
    } else {
      PairsSilent(pf, j, p, r, n - 1);
      PairSilent(pf, j, p, r, 32 * (n - 1));
    }
  }

  lemma PairSilent(pf: Platform, j: Job, p: nat, r: nat, q: nat)
    ensures Silent(pf, LoadA(pf, j, OPCODE_MAT_MUL, p, q)) && Silent(pf, StreamB(pf, j, OPCODE_MAT_MUL, r, q))
  {
    SilentInfo(pf, LoadA(pf, j, OPCODE_MAT_MUL, p, q), 0x2, OPCODE_MAT_MUL, 0);
    SilentInfo(pf, StreamB(pf, j, OPCODE_MAT_MUL, r, q), 0x4, OPCODE_MAT_MUL, 0);
  }

  lemma BarrierSilent(pf: Platform, opcode: nat, config: nat)
    requires opcode < 0x40000
    ensures Silent(pf, Barrier(pf, opcode, config))
  {
    SilentInfo(pf, Barrier(pf, opcode, config), 0x0, opcode, config);
  }

  lemma BlockSilent(pf: Platform, j: Job, p: nat, r: nat)
    ensures AllSilent(pf, Block(pf, j, OPCODE_MAT_MUL, p, r))
  {
    PairsSilent(pf, j, p, r, Ceil(j.q, 32));
    BarrierSilent(pf, OPCODE_MAT_MUL, 0);
    SilentInfo(pf, WriteC(pf, j, OPCODE_MAT_MUL, p, r), 0x9, OPCODE_MAT_MUL, 0);
    hide Pairs, Barrier, WriteC, Silent, Ceil;
  }

  lemma {:induction false} BlocksSilent(pf: Platform, j: Job, n: nat)
    requires n > 0 ==> ColChunks(j) > 0
    ensures AllSilent(pf, Blocks(pf, j, OPCODE_MAT_MUL, n))
  {
    hide Block, Silent, ColChunks;
    if n == 0 {
    } else {
      BlocksSilent(pf, j, n - 1);
      BlockSilent(pf, j, (n - 1) / ColChunks(j), (n - 1) % ColChunks(j));
    }
  }

  lemma {:induction false} TriplesSilent(pf: Platform, opcode: nat, ts: seq<Tri>)
    requires IsEle(opcode)
    ensures AllSilent(pf, TripleChain(pf, opcode, ts))
  {
    hide Triple, Silent;
    if ts == [] {
    } else {
      TriplesSilent(pf, opcode, ts[..|ts| - 1]);
      TripleSilent(pf, opcode, ts[|ts| - 1]);
    }
  }

  lemma TripleSilent(pf: Platform, opcode: nat, t: Tri)
    requires IsEle(opcode)
    ensures AllSilent(pf, Triple(pf, opcode, t))
  {
    SilentInfo(pf, Latch(pf, opcode, t), 0x2, opcode, 0);
    SilentInfo(pf, Stream(pf, opcode, t), 0x4, opcode, 0);
    SilentInfo(pf, WriteBack(pf, opcode, t), 0x9, opcode, 0);
    hide Latch, Stream, WriteBack, Silent;
  }

  lemma {:induction false} TilePairsSilent(pf: Platform, j: Job, opcode: nat, t: nat, n: nat, k: nat)
    requires opcode < 0x40000
    ensures AllSilent(pf, TilePairs(pf, j, opcode, t, n, k))
  {
    hide LoadWeights, StreamPanel, Silent, TileConfig, TileRows, Steps;
    if k == 0 {
    } else {
      var config, h := TileConfig(j, 32 * t), TileRows(j, 32 * t);
      TilePairsSilent(pf, j, opcode, t, n, k - 1);
      LoadSilent(pf, j, opcode, config, 512 * (n * Steps(j) + (k - 1)));
      StreamSilent(pf, j, opcode, config, 32 * t, h, (k - 1) * (32 * h));
    }
  }

  lemma LoadSilent(pf: Platform, j: Job, opcode: nat, config: nat, cnt_B: nat)
    requires opcode < 0x40000
    ensures Silent(pf, LoadWeights(pf, j, opcode, config, cnt_B))
  {
    SilentInfo(pf, LoadWeights(pf, j, opcode, config, cnt_B), 0x2, opcode, config);
  }

  lemma StreamSilent(pf: Platform, j: Job, opcode: nat, config: nat, p: nat, h: nat, cnt_A: nat)
    requires opcode < 0x40000
    ensures Silent(pf, StreamPanel(pf, j, opcode, config, p, h, cnt_A))
  {
    SilentInfo(pf, StreamPanel(pf, j, opcode, config, p, h, cnt_A), 0x4, opcode, config);
  }

  lemma TileBlockSilent(pf: Platform, j: Job, opcode: nat, t: nat, n: nat)
    requires opcode < 0x40000
    ensures AllSilent(pf, TileBlock(pf, j, opcode, t, n))
  {
    TilePairsSilent(pf, j, opcode, t, n, Steps(j));
    BarrierSilent(pf, opcode, TileConfig(j, 32 * t));
    SilentInfo(pf, WriteTile(pf, j, opcode, TileConfig(j, 32 * t), 512 * n), 0x9, opcode, TileConfig(j, 32 * t));
    hide TilePairs, Barrier, WriteTile, Silent, TileConfig, Steps;
  }

  lemma {:induction false} TileBlocksSilent(pf: Platform, j: Job, opcode: nat, n: nat)
    requires opcode < 0x40000 && (n > 0 ==> BankGroups(j) > 0)
    ensures AllSilent(pf, TileBlocks(pf, j, opcode, n))
  {
    hide TileBlock, Silent, BankGroups;
    if n == 0 {
    } else {
      TileBlocksSilent(pf, j, opcode, n - 1);
      TileBlockSilent(pf, j, opcode, (n - 1) / BankGroups(j), n - 1);
    }
  }

  /** Only the last descriptor of a chain touches the marker. */
  lemma BodySilent(pf: Platform, cmd: Command, j: Job)
    requires cmd.Known()
    ensures |ChainOf(pf, cmd, j)| > 0 && AllSilent(pf, ChainOf(pf, cmd, j)[..|ChainOf(pf, cmd, j)| - 1])
  {
    hide AllSilent, Blocks, TripleChain, TileBlocks, NumTileBlocks, AddTris, EleTris, BiasTris;
    match cmd
    case MATMUL => BlocksSilent(pf, j, j.p * ColChunks(j));
    case MATMUL_DECOUPLED =>
      SomeGroups(j);
      TileBlocksSilent(pf, j, Mode(j, OPCODE_MAT_MUL_DECOUPLED_32x1), NumTileBlocks(j));
    case GEMM =>
      BlocksSilent(pf, j, j.p * ColChunks(j));
      TriplesSilent(pf, OPCODE_ELE_ADD, AddTris(pf, j));
      SilentConcat(pf, Blocks(pf, j, OPCODE_MAT_MUL, j.p * ColChunks(j)),
        TripleChain(pf, OPCODE_ELE_ADD, AddTris(pf, j)));
    case ELEWISE(op) => TriplesSilent(pf, op, EleTris(pf, j));
    case BIAS(op) => TriplesSilent(pf, op, BiasTris(pf, j));
  }

  lemma SomeGroups(j: Job)
    ensures NumTileBlocks(j) > 0 ==> BankGroups(j) > 0
  {
  }

  /**
   The end-of-job marker of a successful call, from the sizes alone, for every operation and wherever the
   buffers lie: it is missing exactly when all descriptors but the final one are a nonzero multiple of 255.
   */
  lemma CallMarker(pf: Platform, w0: seq<int>, w: seq<int>, cmd: Command, j: Job, st: State)
    requires Compiled(w0, w, pf, ChainOf(pf, cmd, j)) && cmd.Known() && !st.hpcCleared
    ensures var n := ChainSize(cmd, j) - 1; var plan := PlanOf(pf, |ChainOf(pf, cmd, j)| - 1);
      n >= 0 && (Executed(pf, w, plan, |plan|, st).hpcCleared <==> n == 0 || n % 255 != 0)
  {
    hide *;
    BodySilent(pf, cmd, j);
    ChainEnds(pf, cmd, j);
    ChainLength(pf, cmd, j);
    var ds := ChainOf(pf, cmd, j);
    SilentRun(pf, ds[..|ds| - 1], st);
    ChunkedRefinesPolling(pf, w0, w, ds, st);
    FinalCondition(|ds| - 1);
  }

  lemma FinalCondition(n: nat)
    ensures FinalSubmitted(n) <==> (n == 0 || n % 255 != 0)
  {
  }
}
