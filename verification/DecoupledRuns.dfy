/**
 What executing the chain of `matmul_decoupled` does to DRAM, for every job whose row count is a multiple
 of eight: each result block ends as sums over what the modular cursors point at.
 */
module DecoupledRuns {
  import opened Arith
  import opened Sums
  import opened Machine
  import opened DescMem
  import opened Triples
  import opened MatmulChains
  import opened Decoupled

  /** The mode a job runs in: 32x1 when p is a multiple of 32, else 8x4. */
  function JobMode(j: Job): nat { Mode(j, OPCODE_MAT_MUL_DECOUPLED_32x1) }

  /** Sizes the padded layouts of the host produce. */
  predicate TileSizes(j: Job) {
    j.p % 8 == 0 && j.q % 32 == 0 && j.r % 16 == 0
  }

  function ResultExtent(j: Job): nat { 512 * NumTileBlocks(j) }

  // ----- cursors

  lemma TileRowsFacts(j: Job, t: nat)
    requires j.p % 8 == 0 && t < RowTiles(j)
    ensures TileRows(j, 32 * t) == (if 32 * t + 32 <= j.p then 32 else j.p - 32 * t)
    ensures 8 <= TileRows(j, 32 * t) <= 32 && TileRows(j, 32 * t) % 8 == 0 && 32 * t + TileRows(j, 32 * t) <= j.p
    ensures j.p % 32 == 0 ==> TileRows(j, 32 * t) == 32
  {
    TileStep(j, t);
    hide RowTiles;
    RowPadExact(j);
    hide RowPad;
    if 32 * t + 32 > j.p {
      assert j.p / 32 == t;
    }
  }

  lemma RowPadExact(j: Job)
    requires j.p % 8 == 0
    ensures RowPad(j) == j.p
  {
    assert j.p == 8 * (j.p / 8);
  }

  /** Products of the sizes: whole weight blocks make up B. */
  lemma WeightCount(j: Job)
    requires TileSizes(j)
    ensures j.q == 32 * Steps(j) && j.r == 16 * BankGroups(j)
    ensures j.q * j.r == 512 * (BankGroups(j) * Steps(j))
  {
    assert j.q == 32 * (j.q / 32) && j.r == 16 * (j.r / 16);
    assert (32 * Steps(j)) * (16 * BankGroups(j)) == 512 * (BankGroups(j) * Steps(j));
  }

  /** The weight counter restarts with every row tile: taken modulo B's size it ignores the tile number. */
  lemma WeightCursor(j: Job, t: nat, g: nat, k: nat)
    requires TileSizes(j) && g < BankGroups(j) && k < Steps(j)
    ensures j.q * j.r > 0
    ensures (512 * (TileNo(j, t, g) * Steps(j) + k)) % (j.q * j.r) == 512 * (g * Steps(j) + k)
  {
    WeightCount(j);
    hide BankGroups, Steps;
    var R, Q := BankGroups(j), Steps(j);
    RowMajorBound(g, R, k, Q);
    assert (t * R + g) * Q + k == t * (R * Q) + (g * Q + k);
    WrapMultiple(t, R * Q, g * Q + k);
  }

  lemma WrapMultiple(t: nat, n: nat, x: nat)
    requires x < n
    ensures (512 * (t * n + x)) % (512 * n) == 512 * x
  {
    assert 512 * (t * n + x) == t * (512 * n) + 512 * x;
    DivMod(t, 512 * x, 512 * n);
  }

  /** The panel counter never wraps, and a step's panel lies inside its row tile. */
  lemma PanelCursor(j: Job, t: nat, k: nat)
    requires TileSizes(j) && t < RowTiles(j) && k < Steps(j)
    ensures var h := TileRows(j, 32 * t);
      && 32 * t * j.q + k * (32 * h) + 32 * h <= (32 * t + h) * j.q <= j.p * j.q
      && j.p * j.q > 0
      && (32 * t * j.q + k * (32 * h)) % (j.p * j.q) == 32 * t * j.q + k * (32 * h)
  {
    TileRowsFacts(j, t);
    WeightCount(j);
    hide RowTiles, Steps, TileRows, TileSizes, BankGroups;
    PanelBound(j.p, j.q, Steps(j), t, TileRows(j, 32 * t), k);
  }

  lemma PanelBound(p: nat, q: nat, Q: nat, t: nat, h: nat, k: nat)
    requires q == 32 * Q && 32 * t + h <= p && k < Q && h > 0
    ensures 32 * t * q + k * (32 * h) + 32 * h <= (32 * t + h) * q <= p * q
    ensures p * q > 0 && (32 * t * q + k * (32 * h)) % (p * q) == 32 * t * q + k * (32 * h)
  {
    MulMono(k + 1, Q, 32 * h);
    assert (k + 1) * (32 * h) == k * (32 * h) + 32 * h;
    assert Q * (32 * h) == h * (32 * Q);
    MulMono(32 * t + h, p, q);
    assert (32 * t + h) * q == 32 * t * q + h * q;
    NoWrap(32 * t * q + k * (32 * h), p * q);
  }

  lemma NoWrap(x: nat, n: nat)
    requires x < n
    ensures x % n == x
  {
    DivMod(0, x, n);
  }

  /** Where the panel of step k in row tile t starts, in elements of A. */
  function PanelOffset(j: Job, t: nat, k: nat): nat {
    if j.p * j.q == 0 then 0 else (32 * t * j.q + k * (32 * TileRows(j, 32 * t))) % (j.p * j.q)
  }

  /** Where the weights of step k of block n start, in elements of B. */
  function WeightOffset(j: Job, n: nat, k: nat): nat {
    if j.q * j.r == 0 then 0 else (512 * (n * Steps(j) + k)) % (j.q * j.r)
  }

  function Max(a: nat, b: nat): nat { if a < b then b else a }

  /** Where the panel of step k in row tile t ends, and where the weights of step k of block n end. */
  function PanelEnd(j: Job, t: nat, k: nat): nat { PanelOffset(j, t, k) + 32 * TileRows(j, 32 * t) }
  function WeightEnd(j: Job, n: nat, k: nat): nat { WeightOffset(j, n, k) + 512 }

  /** How far the reads reach in A, over the first t row tiles and the first k steps of the next. */
  function PanelReach(j: Job, t: nat, k: nat): nat
    decreases t, k
  {
    if k > 0 then Max(PanelReach(j, t, k - 1), PanelEnd(j, t, k - 1))
    else if t > 0 then PanelReach(j, t - 1, Steps(j))
    else 0
  }

  /** How far the reads reach in B, over the first n blocks and the first k steps of the next. */
  function WeightReach(j: Job, n: nat, k: nat): nat
    decreases n, k
  {
    if k > 0 then Max(WeightReach(j, n, k - 1), WeightEnd(j, n, k - 1))
    else if n > 0 then WeightReach(j, n - 1, Steps(j))
    else 0
  }

  /** The elements of A and B the chain reads: up to the end of the farthest panel and weight block. */
  function PanelExtent(j: Job): nat { PanelReach(j, RowTiles(j), 0) }
  function WeightExtent(j: Job): nat { WeightReach(j, NumTileBlocks(j), 0) }

  lemma {:induction false} PanelReached(j: Job, t: nat, k: nat, t': nat, k': nat)
    requires k < Steps(j) && (t < t' || (t == t' && k < k'))
    ensures PanelEnd(j, t, k) <= PanelReach(j, t', k')
    decreases t', k'
  {
    hide PanelEnd, Steps;
    if k' > 0 {
      if !(t == t' && k == k' - 1) {
        PanelReached(j, t, k, t', k' - 1);
      }
    } else {
      PanelReached(j, t, k, t' - 1, Steps(j));
    }
  }

  lemma {:induction false} WeightReached(j: Job, n: nat, k: nat, n': nat, k': nat)
    requires k < Steps(j) && (n < n' || (n == n' && k < k'))
    ensures WeightEnd(j, n, k) <= WeightReach(j, n', k')
    decreases n', k'
  {
    hide WeightEnd, Steps;
    if k' > 0 {
      if !(n == n' && k == k' - 1) {
        WeightReached(j, n, k, n', k' - 1);
      }
    } else {
      WeightReached(j, n, k, n' - 1, Steps(j));
    }
  }

  ghost predicate PanelsWithin(j: Job, e: nat) {
    forall t: nat, k: nat {:trigger PanelEnd(j, t, k)} :: t < RowTiles(j) && k < Steps(j) ==> PanelEnd(j, t, k) <= e
  }

  ghost predicate WeightsWithin(j: Job, e: nat) {
    forall n: nat, k: nat {:trigger WeightEnd(j, n, k)} ::
      n < NumTileBlocks(j) && k < Steps(j) ==> WeightEnd(j, n, k) <= e
  }

  /** A bound on every panel bounds the extent. */
  lemma {:induction false} PanelReachBound(j: Job, e: nat, t: nat, k: nat)
    requires PanelsWithin(j, e) && k <= Steps(j) && (t < RowTiles(j) || (t == RowTiles(j) && k == 0))
    ensures PanelReach(j, t, k) <= e
    decreases t, k
  {
    hide PanelEnd, Steps, RowTiles;
    if k > 0 {
      PanelReachBound(j, e, t, k - 1);
    } else if t > 0 {
      PanelReachBound(j, e, t - 1, Steps(j));
    }
  }

  lemma {:induction false} WeightReachBound(j: Job, e: nat, n: nat, k: nat)
    requires WeightsWithin(j, e) && k <= Steps(j) && (n < NumTileBlocks(j) || (n == NumTileBlocks(j) && k == 0))
    ensures WeightReach(j, n, k) <= e
    decreases n, k
  {
    hide WeightEnd, Steps, NumTileBlocks;
    if k > 0 {
      WeightReachBound(j, e, n, k - 1);
    } else if n > 0 {
      WeightReachBound(j, e, n - 1, Steps(j));
    }
  }

  lemma PanelReadInside(j: Job, t: nat, k: nat)
    requires t < RowTiles(j) && k < Steps(j)
    ensures PanelOffset(j, t, k) + 32 * TileRows(j, 32 * t) <= PanelExtent(j)
  {
    hide TileRows, RowTiles, Steps, PanelOffset;
    PanelReached(j, t, k, RowTiles(j), 0);
  }

  lemma WeightReadInside(j: Job, t: nat, g: nat, k: nat)
    requires t < RowTiles(j) && g < BankGroups(j) && k < Steps(j)
    ensures WeightOffset(j, TileNo(j, t, g), k) + 512 <= WeightExtent(j)
  {
    hide RowTiles, BankGroups, Steps, TileNo, WeightOffset, NumTileBlocks;
    TileIndex(j, t, g);
    WeightReached(j, TileNo(j, t, g), k, NumTileBlocks(j), 0);
  }

  lemma ModBelow(x: nat, n: nat)
    ensures n > 0 ==> 0 <= x % n < n
  {
  }

  /** On padded sizes nothing outside the matrices is read. */
  lemma PaddedExtents(j: Job)
    requires TileSizes(j)
    ensures PanelExtent(j) <= j.p * j.q && WeightExtent(j) <= j.q * j.r
  {
    hide TileRows, RowTiles, Steps, NumTileBlocks, TileSizes, PanelOffset, WeightOffset;
    forall t: nat, k: nat | t < RowTiles(j) && k < Steps(j) ensures PanelEnd(j, t, k) <= j.p * j.q {
      PaddedPanel(j, t, k);
    }
    forall n: nat, k: nat | n < NumTileBlocks(j) && k < Steps(j) ensures WeightEnd(j, n, k) <= j.q * j.r {
      PaddedWeights(j, n, k);
    }
    PanelReachBound(j, j.p * j.q, RowTiles(j), 0);
    WeightReachBound(j, j.q * j.r, NumTileBlocks(j), 0);
  }

  lemma PaddedPanel(j: Job, t: nat, k: nat)
    requires TileSizes(j) && t < RowTiles(j) && k < Steps(j)
    ensures PanelEnd(j, t, k) <= j.p * j.q
  {
    hide TileRows, RowTiles, Steps, TileSizes;
    PanelCursor(j, t, k);
  }

  lemma PaddedWeights(j: Job, n: nat, k: nat)
    requires TileSizes(j) && n < NumTileBlocks(j) && k < Steps(j)
    ensures WeightEnd(j, n, k) <= j.q * j.r
  {
    hide *;
    var t, g := BlockOfNo(j, n);
    WeightCount(j);
    BlockWeights(j, t, g, k);
  }

  /** Row tile and column group of a block number. */
  lemma BlockOfNo(j: Job, n: nat) returns (t: nat, g: nat)
    requires n < NumTileBlocks(j)
    ensures t < RowTiles(j) && g < BankGroups(j) && n == TileNo(j, t, g)
  {
    hide RowTiles, BankGroups;
    t, g := RowAndCol(n, RowTiles(j), BankGroups(j));
  }

  lemma BlockWeights(j: Job, t: nat, g: nat, k: nat)
    requires TileSizes(j) && g < BankGroups(j) && k < Steps(j)
    ensures WeightEnd(j, TileNo(j, t, g), k) <= 512 * (BankGroups(j) * Steps(j))
  {
    hide BankGroups, Steps, TileSizes, TileNo;
    WeightCursor(j, t, g, k);
    RowMajorBound(g, BankGroups(j), k, Steps(j));
  }

  ghost predicate DecoupledBuffers(pf: Platform, j: Job) {
    && pf.DevAddr(j.srcA) % 2 == pf.DevAddr(j.srcB) % 2 == pf.DevAddr(j.dstC) % 2 == 0
    && Separate(pf.DevAddr(j.dstC) / 2, ResultExtent(j), pf.DevAddr(j.srcA) / 2, PanelExtent(j))
    && Separate(pf.DevAddr(j.dstC) / 2, ResultExtent(j), pf.DevAddr(j.srcB) / 2, WeightExtent(j))
  }

  // ----- one load/stream pair

  function PanelRead(m: Dram, pf: Platform, j: Job, t: nat, k: nat): seq<int> {
    Read(m, pf.DevAddr(j.srcA) / 2 + PanelOffset(j, t, k), 32 * TileRows(j, 32 * t))
  }

  function WeightRead(m: Dram, pf: Platform, j: Job, n: nat, k: nat): seq<int> {
    Read(m, pf.DevAddr(j.srcB) / 2 + WeightOffset(j, n, k), 512)
  }

  lemma PairAddresses(pf: Platform, j: Job, t: nat, n: nat, k: nat, config: nat)
    requires pf.DevAddr(j.srcA) % 2 == pf.DevAddr(j.srcB) % 2 == 0
    ensures LoadWeights(pf, j, JobMode(j), config, 512 * (n * Steps(j) + k)).sa / 2 ==
      pf.DevAddr(j.srcB) / 2 + WeightOffset(j, n, k)
    ensures var h := TileRows(j, 32 * t);
      StreamPanel(pf, j, JobMode(j), config, 32 * t, h, k * (32 * h)).sa / 2 ==
        pf.DevAddr(j.srcA) / 2 + PanelOffset(j, t, k)
  {
    hide Steps, TileRows, JobMode;
  }

  /** What accumulator x of block n, in row tile t, holds after k steps: zero below the tile. */
  function TileSum(m: Dram, pf: Platform, j: Job, t: nat, n: nat, k: nat, x: nat): int {
    if k == 0 || x % 32 >= TileRows(j, 32 * t) then 0
    else
      TileSum(m, pf, j, t, n, k - 1, x)
      + Sum(DecoupledTerm(JobMode(j), WeightRead(m, pf, j, n, k - 1), PanelRead(m, pf, j, t, k - 1),
        TileRows(j, 32 * t), x), 32)
  }

  ghost predicate TileAcc(m: Dram, pf: Platform, j: Job, t: nat, n: nat, k: nat, acc: seq<int>) {
    && |acc| == ACC_SIZE
    && forall x: nat {:trigger acc[x]} :: x < ACC_SIZE ==> acc[x] == TileSum(m, pf, j, t, n, k, x)
  }

  lemma CombineDecoupled(opcode: nat, vec: seq<int>, acc: seq<int>, s: seq<int>, h: nat, x: nat)
    requires opcode == OPCODE_MAT_MUL_DECOUPLED_32x1 || opcode == OPCODE_MAT_MUL_DECOUPLED_8x4
    requires x < ACC_SIZE == |acc| && |s| == 32 * h
    ensures Combine(opcode, vec, acc, s)[x] ==
      if x % 32 < h then acc[x] + Sum(DecoupledTerm(opcode, vec, s, h, x), 32) else acc[x]
  {
    hide Sum, DecoupledTerm, EleOp, MatMulTerm;
    assert |s| / REG_SIZE == h;
    assert Combine(opcode, vec, acc, s) == DecoupledAcc(opcode, vec, acc, s);
  }

  lemma CombinePair(pf: Platform, j: Job, m: Dram, t: nat, n: nat, k: nat, acc: seq<int>)
    requires TileAcc(m, pf, j, t, n, k, acc)
    ensures TileAcc(m, pf, j, t, n, k + 1, Combine(JobMode(j), WeightRead(m, pf, j, n, k), acc,
      PanelRead(m, pf, j, t, k)))
  {
    assert JobMode(j) == OPCODE_MAT_MUL_DECOUPLED_32x1 || JobMode(j) == OPCODE_MAT_MUL_DECOUPLED_8x4;
    hide TileRows, WeightRead, JobMode, Combine, Sum, DecoupledTerm, PanelOffset;
    forall x: nat | x < ACC_SIZE {
      CombineDecoupled(JobMode(j), WeightRead(m, pf, j, n, k), acc, PanelRead(m, pf, j, t, k), TileRows(j, 32 * t), x);
    }
  }

  lemma PairStep(pf: Platform, j: Job, config: nat, t: nat, n: nat, k: nat, st: State)
    requires pf.DevAddr(j.srcA) % 2 == pf.DevAddr(j.srcB) % 2 == 0
    requires TileAcc(st.dram, pf, j, t, n, k, st.acc)
    ensures var h := TileRows(j, 32 * t);
      var load := LoadWeights(pf, j, JobMode(j), config, 512 * (n * Steps(j) + k));
      var stream := StreamPanel(pf, j, JobMode(j), config, 32 * t, h, k * (32 * h));
      var st' := Step(pf, stream, Step(pf, load, st));
      st'.dram == st.dram && st'.hpcCleared == st.hpcCleared && TileAcc(st.dram, pf, j, t, n, k + 1, st'.acc)
  {
    hide Step, TileAcc, Combine, Steps, TileRows, PanelOffset, WeightOffset;
    var h := TileRows(j, 32 * t);
    var load := LoadWeights(pf, j, JobMode(j), config, 512 * (n * Steps(j) + k));
    var stream := StreamPanel(pf, j, JobMode(j), config, 32 * t, h, k * (32 * h));
    StepLoad(pf, load, JobMode(j), config, st);
    var st1 := Step(pf, load, st);
    StepStream(pf, stream, JobMode(j), config, st1);
    PairAddresses(pf, j, t, n, k, config);
    CombinePair(pf, j, st.dram, t, n, k, st.acc);
  }

  // ----- one block

  lemma {:induction false} PairsRun(pf: Platform, j: Job, t: nat, n: nat, k: nat, st: State)
    requires pf.DevAddr(j.srcA) % 2 == pf.DevAddr(j.srcB) % 2 == 0
    requires st.acc == ZeroAcc()
    ensures var st' := Exec(pf, TilePairs(pf, j, JobMode(j), t, n, k), st);
      st'.dram == st.dram && st'.hpcCleared == st.hpcCleared && TileAcc(st.dram, pf, j, t, n, k, st'.acc)
  {
    hide *;
    if k == 0 {
      NoPairsRun(pf, j, t, n, st);
    } else {
      var op, h, config := JobMode(j), TileRows(j, 32 * t), TileConfig(j, 32 * t);
      var ds := TilePairs(pf, j, op, t, n, k - 1);
      var load, stream := LoadWeights(pf, j, op, config, 512 * (n * Steps(j) + (k - 1))),
                          StreamPanel(pf, j, op, config, 32 * t, h, (k - 1) * (32 * h));
      PairsRun(pf, j, t, n, k - 1, st);
      TilePairsUnfold(pf, j, op, t, n, k);
      ExecSnoc(pf, ds + [load], stream, st);
      ExecSnoc(pf, ds, load, st);
      PairStep(pf, j, config, t, n, k - 1, Exec(pf, ds, st));
    }
  }

  lemma NoPairsRun(pf: Platform, j: Job, t: nat, n: nat, st: State)
    requires st.acc == ZeroAcc()
    ensures Exec(pf, TilePairs(pf, j, JobMode(j), t, n, 0), st) == st
    ensures TileAcc(st.dram, pf, j, t, n, 0, st.acc)
  {
    hide TileRows;
  }

  lemma TilePairsUnfold(pf: Platform, j: Job, opcode: nat, t: nat, n: nat, k: nat)
    requires k > 0
    ensures TilePairs(pf, j, opcode, t, n, k) == TilePairs(pf, j, opcode, t, n, k - 1)
      + [LoadWeights(pf, j, opcode, TileConfig(j, 32 * t), 512 * (n * Steps(j) + (k - 1)))]
      + [StreamPanel(pf, j, opcode, TileConfig(j, 32 * t), 32 * t, TileRows(j, 32 * t),
        (k - 1) * (32 * TileRows(j, 32 * t)))]
  {
    hide LoadWeights, StreamPanel, TileConfig, TileRows, Steps;
  }

  /** DRAM m' is DRAM m with the 512 elements of result block n replaced by their sums. */
  ghost predicate TileResult(pf: Platform, j: Job, t: nat, n: nat, m: Dram, m': Dram) {
    var c := pf.DevAddr(j.dstC) / 2 + 512 * n;
    forall y {:trigger m'(y)} :: m'(y) == if c <= y < c + 512 then TileSum(m, pf, j, t, n, Steps(j), y - c) else m(y)
  }

  lemma FlushTile(pf: Platform, j: Job, t: nat, n: nat, m: Dram, acc: seq<int>)
    requires TileAcc(m, pf, j, t, n, Steps(j), acc)
    ensures TileResult(pf, j, t, n, m, Write(m, pf.DevAddr(j.dstC) / 2 + 512 * n, acc, 512))
  {
    hide TileSum, Steps;
    var c := pf.DevAddr(j.dstC) / 2 + 512 * n;
    forall y | c <= y < c + 512 ensures Write(m, c, acc, 512)(y) == TileSum(m, pf, j, t, n, Steps(j), y - c) {
      var x: nat := y - c;
      assert At(acc, x) == acc[x];
    }
  }

  lemma TileBlockRun(pf: Platform, j: Job, t: nat, n: nat, st: State)
    requires pf.DevAddr(j.srcA) % 2 == pf.DevAddr(j.srcB) % 2 == pf.DevAddr(j.dstC) % 2 == 0
    requires st.acc == ZeroAcc()
    ensures var st' := Exec(pf, TileBlock(pf, j, JobMode(j), t, n), st);
      st'.acc == ZeroAcc() && st'.hpcCleared == st.hpcCleared && TileResult(pf, j, t, n, st.dram, st'.dram)
  {
    hide Step, TilePairs, Exec, TileAcc, TileResult, Steps, TileRows, TileConfig;
    var op, config := JobMode(j), TileConfig(j, 32 * t);
    var ds, bar, w := TilePairs(pf, j, op, t, n, Steps(j)), Barrier(pf, op, config),
      WriteTile(pf, j, op, config, 512 * n);
    assert TileBlock(pf, j, op, t, n) == ds + [bar] + [w] + [bar];
    PairsRun(pf, j, t, n, Steps(j), st);
    var st1 := Exec(pf, ds, st);
    ExecSnoc(pf, ds + [bar] + [w], bar, st);
    ExecSnoc(pf, ds + [bar], w, st);
    ExecSnoc(pf, ds, bar, st);
    StepBarrier(pf, bar, op, config, st1);
    var st2 := Step(pf, bar, st1);
    StepWrite(pf, w, op, config, st2);
    StepBarrier(pf, bar, op, config, Step(pf, w, st2));
    FlushTile(pf, j, t, n, st.dram, st1.acc);
  }

  // ----- all blocks

  lemma ReadSame(m: Dram, m': Dram, a: int, len: nat, off: nat, n: nat)
    requires Agree(m, m', a, len) && off + n <= len
    ensures Read(m', a + off, n) == Read(m, a + off, n)
  {
  }

  lemma {:induction false} TileSumFrame(pf: Platform, j: Job, t: nat, g: nat, k: nat, x: nat, m: Dram, m': Dram)
    requires j.p % 8 == 0 && t < RowTiles(j) && g < BankGroups(j) && k <= Steps(j)
    requires Agree(m, m', pf.DevAddr(j.srcA) / 2, PanelExtent(j)) &&
      Agree(m, m', pf.DevAddr(j.srcB) / 2, WeightExtent(j))
    ensures TileSum(m', pf, j, t, TileNo(j, t, g), k, x) == TileSum(m, pf, j, t, TileNo(j, t, g), k, x)
  {
    hide RowTiles, BankGroups, TileRows, Steps, TileNo, Agree, PanelExtent, WeightExtent, PanelOffset, WeightOffset,
         Sum, DecoupledTerm, JobMode;
    if k == 0 {
    } else {
      TileSumFrame(pf, j, t, g, k - 1, x, m, m');
      PanelReadInside(j, t, k - 1);
      WeightReadInside(j, t, g, k - 1);
      ReadSame(m, m', pf.DevAddr(j.srcA) / 2, PanelExtent(j), PanelOffset(j, t, k - 1), 32 * TileRows(j, 32 * t));
      ReadSame(m, m', pf.DevAddr(j.srcB) / 2, WeightExtent(j), WeightOffset(j, TileNo(j, t, g), k - 1), 512);
    }
  }

  /** The value that flat element d of the result ends with. */
  function TileCell(m: Dram, pf: Platform, j: Job, d: nat): int
    requires BankGroups(j) > 0
  {
    TileSum(m, pf, j, (d / 512) / BankGroups(j), d / 512, Steps(j), d % 512)
  }

  /** DRAM m' is DRAM m with the first n result blocks replaced by their values in m. */
  ghost predicate TilesResult(pf: Platform, j: Job, n: nat, m: Dram, m': Dram)
    requires n > 0 ==> BankGroups(j) > 0
  {
    var c := pf.DevAddr(j.dstC) / 2;
    forall y {:trigger m'(y)} :: m'(y) == if c <= y < c + 512 * n then TileCell(m, pf, j, y - c) else m(y)
  }

  lemma TilesStep(pf: Platform, j: Job, t: nat, g: nat, m: Dram, m1: Dram, m2: Dram)
    requires DecoupledBuffers(pf, j) && j.p % 8 == 0 && t < RowTiles(j) && g < BankGroups(j)
    requires TilesResult(pf, j, TileNo(j, t, g), m, m1) && TileResult(pf, j, t, TileNo(j, t, g), m1, m2)
    ensures TilesResult(pf, j, TileNo(j, t, g) + 1, m, m2)
  {
    hide BankGroups, RowTiles, TileCell, DecoupledBuffers, TileResult, TileNo;
    forall y {
      TilesCell(pf, j, t, g, m, m1, m2, y);
    }
  }

  lemma TilesCell(pf: Platform, j: Job, t: nat, g: nat, m: Dram, m1: Dram, m2: Dram, y: int)
    requires DecoupledBuffers(pf, j) && j.p % 8 == 0 && t < RowTiles(j) && g < BankGroups(j)
    requires TilesResult(pf, j, TileNo(j, t, g), m, m1) && TileResult(pf, j, t, TileNo(j, t, g), m1, m2)
    ensures var c := pf.DevAddr(j.dstC) / 2;
      m2(y) == if c <= y < c + 512 * (TileNo(j, t, g) + 1) then TileCell(m, pf, j, y - c) else m(y)
  {
    hide BankGroups, RowTiles, TileSum, TileCell, Steps, PanelExtent, WeightExtent;
    var c, n := pf.DevAddr(j.dstC) / 2, TileNo(j, t, g);
    if c + 512 * n <= y < c + 512 * n + 512 {
      var x: nat := y - c - 512 * n;
      TileCellAt(pf, j, m, t, g, x);
      TileIndex(j, t, g);
      SourcesIntact(pf, j, n, m, m1);
      TileSumFrame(pf, j, t, g, Steps(j), x, m, m1);
    }
  }

  lemma TileCellAt(pf: Platform, j: Job, m: Dram, t: nat, g: nat, x: nat)
    requires g < BankGroups(j) && x < 512
    ensures TileCell(m, pf, j, 512 * TileNo(j, t, g) + x) == TileSum(m, pf, j, t, TileNo(j, t, g), Steps(j), x)
  {
    hide BankGroups, TileSum, Steps;
    DivMod(t, g, BankGroups(j));
    BlockOf(TileNo(j, t, g), x);
  }

  lemma BlockOf(n: nat, x: nat)
    requires x < 512
    ensures (512 * n + x) / 512 == n && (512 * n + x) % 512 == x
  {
  }

  lemma SourcesIntact(pf: Platform, j: Job, n: nat, m: Dram, m1: Dram)
    requires DecoupledBuffers(pf, j) && BankGroups(j) > 0 && n <= NumTileBlocks(j)
    requires TilesResult(pf, j, n, m, m1)
    ensures Agree(m, m1, pf.DevAddr(j.srcA) / 2, PanelExtent(j)) &&
      Agree(m, m1, pf.DevAddr(j.srcB) / 2, WeightExtent(j))
  {
    hide BankGroups, NumTileBlocks, TileCell, PanelExtent, WeightExtent;
  }

  lemma NoTilesRun(pf: Platform, j: Job, st: State)
    ensures Exec(pf, TileBlocks(pf, j, JobMode(j), 0), st) == st && TilesResult(pf, j, 0, st.dram, st.dram)
  {
  }

  lemma TilesUnfold(pf: Platform, j: Job, n: nat, st: State) returns (t: nat, g: nat)
    requires 0 < n <= NumTileBlocks(j) && BankGroups(j) > 0
    ensures t < RowTiles(j) && g < BankGroups(j) && n == TileNo(j, t, g) + 1
    ensures Exec(pf, TileBlocks(pf, j, JobMode(j), n), st) ==
      Exec(pf, TileBlock(pf, j, JobMode(j), t, n - 1), Exec(pf, TileBlocks(pf, j, JobMode(j), n - 1), st))
  {
    hide Exec, TileBlocks, TileBlock, BankGroups, RowTiles;
    t, g := RowAndCol(n - 1, RowTiles(j), BankGroups(j));
    TileBlockAt(pf, j, JobMode(j), t, g);
    ExecConcat(pf, TileBlocks(pf, j, JobMode(j), n - 1), TileBlock(pf, j, JobMode(j), t, n - 1), st);
  }

  lemma BuffersEven(pf: Platform, j: Job)
    requires DecoupledBuffers(pf, j)
    ensures pf.DevAddr(j.srcA) % 2 == pf.DevAddr(j.srcB) % 2 == pf.DevAddr(j.dstC) % 2 == 0
  {
  }

  lemma {:induction false} TilesRun(pf: Platform, j: Job, n: nat, st: State)
    requires DecoupledBuffers(pf, j) && j.p % 8 == 0 && st.acc == ZeroAcc()
    requires n <= NumTileBlocks(j) && (n > 0 ==> BankGroups(j) > 0)
    ensures var st' := Exec(pf, TileBlocks(pf, j, JobMode(j), n), st);
      st'.acc == ZeroAcc() && st'.hpcCleared == st.hpcCleared && TilesResult(pf, j, n, st.dram, st'.dram)
  {
    hide *;
    if n == 0 {
      NoTilesRun(pf, j, st);
    } else {
      TilesRun(pf, j, n - 1, st);
      var st1 := Exec(pf, TileBlocks(pf, j, JobMode(j), n - 1), st);
      var t, g := TilesUnfold(pf, j, n, st);
      BuffersEven(pf, j);
      TileBlockRun(pf, j, t, n - 1, st1);
      TilesStep(pf, j, t, g, st.dram, st1.dram, Exec(pf, TileBlock(pf, j, JobMode(j), t, n - 1), st1).dram);
    }
  }

  /** The whole chain: every result block ends with its sums, nothing else changes, the marker is written. */
  lemma ChainRun(pf: Platform, j: Job, st: State)
    requires DecoupledBuffers(pf, j) && j.p % 8 == 0 && st.acc == ZeroAcc()
    ensures NumTileBlocks(j) > 0 ==> BankGroups(j) > 0
    ensures var st' := Exec(pf, DecoupledChain(pf, j, OPCODE_MAT_MUL_DECOUPLED_32x1), st);
      st'.acc == ZeroAcc() && st'.hpcCleared && TilesResult(pf, j, NumTileBlocks(j), st.dram, st'.dram)
  {
    assert NumTileBlocks(j) > 0 ==> BankGroups(j) > 0;
    assert JobMode(j) < 0x40000;
    hide Exec, Step, TileBlocks, NumTileBlocks, BankGroups, LastConfig, TilesResult, DecoupledBuffers, JobMode;
    var n := NumTileBlocks(j);
    var ds := TileBlocks(pf, j, JobMode(j), n);
    TilesRun(pf, j, n, st);
    var st1 := Exec(pf, ds, st);
    var last := Final(pf, 0, JobMode(j), LastConfig(j));
    ChainSplit(pf, j);
    ExecSnoc(pf, ds, last, st);
    StepBarrier(pf, last, JobMode(j), LastConfig(j), st1);
  }

  lemma ChainSplit(pf: Platform, j: Job)
    ensures DecoupledChain(pf, j, OPCODE_MAT_MUL_DECOUPLED_32x1) ==
      TileBlocks(pf, j, JobMode(j), NumTileBlocks(j)) + [Final(pf, 0, JobMode(j), LastConfig(j))]
  {
  }
}
