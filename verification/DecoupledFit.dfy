/**
 Sizes for which the host's decoupled job is right. The host pads rows, inner dimension and columns in its
 layouts, but hands the driver the unpadded inner dimension and column count, and the driver takes its
 cursors modulo unpadded sizes; here are the sizes for which those cursors still agree with the layouts.
 */
module DecoupledFit {
  import opened Arith
  import opened Sums
  import opened Machine
  import opened DescMem
  import opened Triples
  import opened Decoupled
  import opened DecoupledRuns
  import opened DecoupledResults
  import opened DecoupledHost
  import opened DecoupledEndToEnd
  import opened GemmHost
  import opened GemmEndToEnd

  /** The job with the sizes the layouts are made for. */
  function Padded(j: Job): Job {
    j.(q := 32 * Steps(j), r := 16 * BankGroups(j))
  }

  lemma PaddedFacts(j: Job)
    requires j.p % 8 == 0
    ensures var jp := Padded(j);
      && TileSizes(jp) && Steps(jp) == Steps(j) && BankGroups(jp) == BankGroups(j) && RowTiles(jp) == RowTiles(j)
      && JobMode(jp) == JobMode(j) && j.q <= jp.q < j.q + 32 && j.r <= jp.r < j.r + 16
      && (j.q % 32 == 0 && j.r % 16 == 0 ==> jp == j)
  {
  }

  lemma SameRows(j: Job, t: nat)
    ensures TileRows(Padded(j), 32 * t) == TileRows(j, 32 * t)
    ensures forall g: nat :: TileNo(Padded(j), t, g) == TileNo(j, t, g)
    ensures NumTileBlocks(Padded(j)) == NumTileBlocks(j)
  {
  }

  /** A job of the 32x1 build: whole tiles of rows, of which the matrix fills all but at most the last 31. */
  predicate HostSizes(j: Job, rows: nat) {
    j.p % 32 == 0 && 0 < rows <= j.p < rows + 32 && j.q > 0 && j.r > 0
  }

  /** The buffers hold the host's layouts; the device is idle. */
  ghost predicate LaidOut(pf: Platform, j: Job, rows: nat, srcA: seq<int>, srcB: seq<int>, st: State) {
    && |srcA| == Area(rows, j.q) && |srcB| == Area(j.q, j.r)
    && Loaded(st.dram, pf.DevAddr(j.srcA) / 2, PanelLayout(Padded(j), Widened(srcA, rows, j.q, Padded(j).q), rows))
    && Loaded(st.dram, pf.DevAddr(j.srcB) / 2, WeightLayout(Padded(j), Widened(srcB, j.q, j.r, Padded(j).r)))
    && st.acc == ZeroAcc()
  }

  /** Whole blocks, or a single row tile whose last weight block the modular cursor reaches without wrapping. */
  predicate HostFits(j: Job) {
    (j.q % 32 == 0 && j.r % 16 == 0) || (j.p == 32 && 512 * (BankGroups(j) * Steps(j) - 1) < j.q * j.r)
  }

  // ----- fitting sizes

  /** In the first row tile the panel cursor is the step number times 1024. */
  lemma FirstPanel(j: Job, k: nat)
    requires j.p >= 32 && TileRows(j, 0) == 32 && 32 * k < j.q
    ensures PanelOffset(j, 0, k) == k * 1024
  {
    hide TileRows;
    MulMono(32, j.p, j.q);
    NoWrap(k * 1024, j.p * j.q);
  }

  lemma WeightUnwrapped(j: Job, n: nat, k: nat)
    requires 512 * (n * Steps(j) + k) < j.q * j.r
    ensures WeightOffset(j, n, k) == 512 * (n * Steps(j) + k)
  {
    hide Steps;
    NoWrap(512 * (n * Steps(j) + k), j.q * j.r);
  }

  lemma LastWeights(R: nat, Q: nat, g: nat, k: nat, size: int)
    requires g < R && k < Q && 512 * (R * Q - 1) < size
    ensures 512 * (g * Q + k) < size
  {
    RowMajorBound(g, R, k, Q);
  }

  lemma ProductGrows(q: nat, r: nat, qw: nat, rw: nat)
    requires q <= qw && r <= rw
    ensures q * r <= qw * rw
  {
    MulMono(q, qw, r);
    MulMono(r, rw, qw);
  }

  lemma SingleTile(j: Job, t: nat, g: nat)
    requires j.p == 32 && t < RowTiles(j)
    ensures t == 0 && TileNo(j, t, g) == g && TileRows(j, 0) == 32
  {
    TileStep(j, t);
    TileRowsFacts(j, t);
  }

  lemma SingleCursors(j: Job, g: nat, k: nat)
    requires j.p == 32 && 512 * (BankGroups(j) * Steps(j) - 1) < j.q * j.r && TileRows(j, 0) == 32
    requires g < BankGroups(j) && k < Steps(j)
    ensures PanelOffset(j, 0, k) == PanelOffset(Padded(j), 0, k) &&
      WeightOffset(j, g, k) == WeightOffset(Padded(j), g, k)
  {
    PaddedFacts(j);
    SameRows(j, 0);
    StepStep(j, k);
    hide Steps, BankGroups, TileRows, PanelOffset, WeightOffset, Padded;
    FirstPanel(j, k);
    FirstPanel(Padded(j), k);
    LastWeights(BankGroups(j), Steps(j), g, k, j.q * j.r);
    ProductGrows(j.q, j.r, Padded(j).q, Padded(j).r);
    WeightUnwrapped(j, g, k);
    WeightUnwrapped(Padded(j), g, k);
  }

  lemma FitCursors(j: Job, t: nat, g: nat, k: nat)
    requires HostFits(j) && t < RowTiles(j) && g < BankGroups(j) && k < Steps(j)
    ensures PanelOffset(j, t, k) == PanelOffset(Padded(j), t, k)
    ensures WeightOffset(j, TileNo(j, t, g), k) == WeightOffset(Padded(j), TileNo(j, t, g), k)
  {
    if j.q % 32 == 0 && j.r % 16 == 0 {
      assert Padded(j) == j;
    } else {
      hide Steps, BankGroups, RowTiles, PanelOffset, WeightOffset, Padded, TileNo, TileRows;
      SingleTile(j, t, g);
      SingleCursors(j, g, k);
    }
  }

  /** C clear of the two padded layouts. */
  ghost predicate HostBuffers(pf: Platform, j: Job) {
    && pf.DevAddr(j.srcA) % 2 == pf.DevAddr(j.srcB) % 2 == pf.DevAddr(j.dstC) % 2 == 0
    && Separate(pf.DevAddr(j.dstC) / 2, ResultExtent(j), pf.DevAddr(j.srcA) / 2, Area(j.p, Padded(j).q))
    && Separate(pf.DevAddr(j.dstC) / 2, ResultExtent(j), pf.DevAddr(j.srcB) / 2, Area(Padded(j).q, Padded(j).r))
  }

  /** For sizes that fit nothing outside the padded layouts is read. */
  lemma FitBuffers(pf: Platform, j: Job)
    requires j.p % 8 == 0 && j.r > 0 && HostFits(j) && HostBuffers(pf, j)
    ensures DecoupledBuffers(pf, j)
  {
    FitExtents(j);
    hide PanelExtent, WeightExtent, ResultExtent, Padded, HostFits;
  }

  lemma FitExtents(j: Job)
    requires j.p % 8 == 0 && j.r > 0 && HostFits(j)
    ensures PanelExtent(j) <= j.p * Padded(j).q && WeightExtent(j) <= Padded(j).q * Padded(j).r
  {
    hide *;
    forall t: nat, k: nat | t < RowTiles(j) && k < Steps(j) ensures PanelEnd(j, t, k) <= j.p * Padded(j).q {
      FitPanel(j, t, k);
    }
    PanelsBound(j, j.p * Padded(j).q);
    forall n: nat, k: nat | n < NumTileBlocks(j) && k < Steps(j)
      ensures WeightEnd(j, n, k) <= Padded(j).q * Padded(j).r
    {
      FitBlock(j, n, k);
    }
    WeightsBound(j, Padded(j).q * Padded(j).r);
  }

  lemma PanelsBound(j: Job, e: nat)
    requires forall t: nat, k: nat :: t < RowTiles(j) && k < Steps(j) ==> PanelEnd(j, t, k) <= e
    ensures PanelExtent(j) <= e
  {
    hide PanelEnd, RowTiles, Steps;
    PanelReachBound(j, e, RowTiles(j), 0);
  }

  lemma WeightsBound(j: Job, e: nat)
    requires forall n: nat, k: nat :: n < NumTileBlocks(j) && k < Steps(j) ==> WeightEnd(j, n, k) <= e
    ensures WeightExtent(j) <= e
  {
    hide WeightEnd, NumTileBlocks, Steps;
    WeightReachBound(j, e, NumTileBlocks(j), 0);
  }

  lemma FitPanel(j: Job, t: nat, k: nat)
    requires j.p % 8 == 0 && j.r > 0 && HostFits(j) && t < RowTiles(j) && k < Steps(j)
    ensures PanelEnd(j, t, k) <= j.p * Padded(j).q
  {
    PaddedFacts(j);
    SameRows(j, t);
    GroupStep(j, 0);
    hide HostFits, RowTiles, BankGroups, Steps, TileRows, PanelOffset, WeightOffset, Padded, TileNo, TileSizes;
    FitCursors(j, t, 0, k);
    PaddedPanel(Padded(j), t, k);
  }

  lemma FitBlock(j: Job, n: nat, k: nat)
    requires j.p % 8 == 0 && j.r > 0 && HostFits(j) && n < NumTileBlocks(j) && k < Steps(j)
    ensures WeightEnd(j, n, k) <= Padded(j).q * Padded(j).r
  {
    PaddedFacts(j);
    SameCounts(j);
    hide HostFits, RowTiles, BankGroups, Steps, WeightOffset, PanelOffset, Padded, TileNo, TileSizes, NumTileBlocks;
    var t, g := BlockOfNo(j, n);
    FitCursors(j, t, g, k);
    PaddedWeights(Padded(j), n, k);
  }

  lemma FitReads(pf: Platform, j: Job, m: Dram, t: nat, g: nat, k: nat)
    requires HostFits(j) && t < RowTiles(j) && g < BankGroups(j) && k < Steps(j)
    ensures PanelRead(m, pf, j, t, k) == PanelRead(m, pf, Padded(j), t, k)
    ensures WeightRead(m, pf, j, TileNo(j, t, g), k) == WeightRead(m, pf, Padded(j), TileNo(j, t, g), k)
  {
    SameRows(j, t);
    SameBuffers(pf, j);
    hide HostFits, RowTiles, BankGroups, Steps, TileRows, TileNo, PanelOffset, WeightOffset, Padded;
    FitCursors(j, t, g, k);
  }

  lemma {:induction false} FitSums(pf: Platform, j: Job, m: Dram, t: nat, g: nat, k: nat, x: nat)
    requires HostFits(j) && t < RowTiles(j) && g < BankGroups(j) && k <= Steps(j)
    ensures TileSum(m, pf, j, t, TileNo(j, t, g), k, x) == TileSum(m, pf, Padded(j), t, TileNo(j, t, g), k, x)
  {
    SameRows(j, t);
    SameMode(j);
    hide HostFits, RowTiles, BankGroups, Steps, TileRows, TileNo, JobMode, PanelRead, WeightRead, Sum, DecoupledTerm,
         Padded;
    if k == 0 {
    } else {
      FitSums(pf, j, m, t, g, k - 1, x);
      FitReads(pf, j, m, t, g, k - 1);
    }
  }

  lemma SameMode(j: Job)
    ensures JobMode(Padded(j)) == JobMode(j) && RowTiles(Padded(j)) == RowTiles(j)
  {
  }

  lemma SameCounts(j: Job)
    ensures Steps(Padded(j)) == Steps(j) && BankGroups(Padded(j)) == BankGroups(j) &&
      NumTileBlocks(Padded(j)) == NumTileBlocks(j)
  {
  }

  lemma FitCell(pf: Platform, j: Job, m: Dram, d: nat)
    requires HostFits(j) && BankGroups(j) > 0 && d < 512 * NumTileBlocks(j)
    ensures BankGroups(Padded(j)) == BankGroups(j) && TileCell(m, pf, j, d) == TileCell(m, pf, Padded(j), d)
  {
    SameCounts(j);
    hide HostFits, RowTiles, BankGroups, Steps, TileSum, Padded;
    FlatSplit(d / 512, RowTiles(j), BankGroups(j));
    FitSums(pf, j, m, (d / 512) / BankGroups(j), (d / 512) % BankGroups(j), Steps(j), d % 512);
  }

  lemma FitTileAt(pf: Platform, j: Job, m: Dram, m': Dram, y: int)
    requires HostFits(j) && (NumTileBlocks(j) > 0 ==> BankGroups(j) > 0)
    requires TilesResult(pf, j, NumTileBlocks(j), m, m')
    ensures BankGroups(Padded(j)) == BankGroups(j)
    ensures var c := pf.DevAddr(j.dstC) / 2;
      m'(y) == if c <= y < c + 512 * NumTileBlocks(j) then TileCell(m, pf, Padded(j), y - c) else m(y)
  {
    SameCounts(j);
    hide HostFits, NumTileBlocks, BankGroups, TileCell, Padded;
    var c := pf.DevAddr(j.dstC) / 2;
    if c <= y < c + 512 * NumTileBlocks(j) {
      FitCell(pf, j, m, y - c);
    }
  }

  lemma FitTiles(pf: Platform, j: Job, m: Dram, m': Dram)
    requires HostFits(j) && (NumTileBlocks(j) > 0 ==> BankGroups(j) > 0)
    requires TilesResult(pf, j, NumTileBlocks(j), m, m')
    ensures NumTileBlocks(Padded(j)) == NumTileBlocks(j) && BankGroups(Padded(j)) == BankGroups(j)
    ensures TilesResult(pf, Padded(j), NumTileBlocks(j), m, m')
  {
    SameCounts(j);
    SameBuffers(pf, j);
    hide HostFits, NumTileBlocks, BankGroups, TileCell, Padded;
    forall y {
      FitTileAt(pf, j, m, m', y);
    }
  }

  lemma SameBuffers(pf: Platform, j: Job)
    ensures pf.DevAddr(Padded(j).dstC) == pf.DevAddr(j.dstC)
    ensures pf.DevAddr(Padded(j).srcA) == pf.DevAddr(j.srcA) && pf.DevAddr(Padded(j).srcB) == pf.DevAddr(j.srcB)
  {
  }

  lemma WideRow(src: seq<int>, rows: nat, cols: nat, wide: nat, i: nat, k: nat)
    requires |src| == Area(rows, cols) && cols <= wide && k < wide
    ensures Rows(Widened(src, rows, cols, wide), wide)(i, k) ==
      if i < rows && k < cols then Rows(src, cols)(i, k) else 0
  {
    hide Widened;
    WidenedAt(src, rows, cols, wide, i, k);
  }

  /** Zero columns of A and zero rows of B add nothing to a dot product. */
  lemma WideDot(srcA: seq<int>, srcB: seq<int>, rows: nat, q: nat, r: nat, qw: nat, rw: nat, i: nat, c: nat)
    requires |srcA| == Area(rows, q) && |srcB| == Area(q, r) && q <= qw && r <= rw && i < rows && c < r
    ensures Dot(Rows(Widened(srcA, rows, q, qw), qw), Rows(Widened(srcB, q, r, rw), rw), i, c, qw) ==
      Dot(Rows(srcA, q), Rows(srcB, r), i, c, q)
  {
    hide Widened, Dot, Rows, Area;
    var A, B := Rows(Widened(srcA, rows, q, qw), qw), Rows(Widened(srcB, q, r, rw), rw);
    forall k: nat | k < qw
      ensures A(i, k) == if k < q then Rows(srcA, q)(i, k) else 0
      ensures B(k, c) == if k < q then Rows(srcB, r)(k, c) else 0
    {
      WideRow(srcA, rows, q, qw, i, k);
      WideRow(srcB, q, r, rw, k, c);
    }
    DotExt(A, B, i, c, Rows(srcA, q), Rows(srcB, r), i, c, q);
    ZeroTail(A, B, i, c, q, qw);
  }

  lemma {:induction false} ZeroTail(A: Matrix, B: Matrix, i: int, c: int, q: nat, qw: nat)
    requires q <= qw && forall k: nat {:trigger A(i, k)} :: q <= k < qw ==> A(i, k) == 0
    ensures Dot(A, B, i, c, qw) == Dot(A, B, i, c, q)
  {
    if q < qw {
      ZeroTail(A, B, i, c, q, qw - 1);
      assert A(i, qw - 1) == 0;
    }
  }

  lemma FitAddr(j: Job, rows: nat, i: nat, c: nat)
    requires HostSizes(j, rows) && HostFits(j) && i < rows
    ensures ResultAddr(j, i, c) == ResultAddr(Padded(j), i, c)
  {
    hide ResultAddr, Padded, BankGroups, Steps;
    if j.p == 32 {
      FirstTileAddr(j, i, c);
    } else {
      WholeBlocks(j);
    }
  }

  /** In the first tile the result layout does not depend on the column count. */
  lemma FirstTileAddr(j: Job, i: nat, c: nat)
    requires i < 32
    ensures ResultAddr(j, i, c) == ResultAddr(Padded(j), i, c)
  {
    hide Padded;
    assert i / 32 == 0;
  }

  lemma WholeBlocks(j: Job)
    requires j.q % 32 == 0 && j.r % 16 == 0
    ensures Padded(j) == j
  {
  }

  lemma FitDot(pf: Platform, j: Job, rows: nat, srcA: seq<int>, srcB: seq<int>, st: State, i: nat, c: nat)
    requires HostSizes(j, rows) && LaidOut(pf, j, rows, srcA, srcB, st) && i < rows && c < j.r
    ensures Dot(MemPanels(st.dram, pf, Padded(j)), MemWeights(st.dram, pf, Padded(j)), i, c, Padded(j).q) ==
      Dot(Rows(srcA, j.q), Rows(srcB, j.r), i, c, j.q)
  {
    SizesFacts(j, rows);
    PaddedFacts(j);
    SameBuffers(pf, j);
    hide HostSizes, PanelLayout, WeightLayout, Loaded, MemPanels, MemWeights, Rows, Dot, TileSizes, Widened, Area,
         Padded;
    var jp := Padded(j);
    LoadedDot(pf, jp, rows, Widened(srcA, rows, j.q, jp.q), Widened(srcB, j.q, j.r, jp.r), st.dram, i, c);
    WideDot(srcA, srcB, rows, j.q, j.r, jp.q, jp.r, i, c);
  }

  lemma FitElement(pf: Platform, j: Job, rows: nat, srcA: seq<int>, srcB: seq<int>, st: State, m': Dram, i: nat, c: nat)
    requires HostSizes(j, rows) && HostFits(j) && LaidOut(pf, j, rows, srcA, srcB, st)
    requires DecoupledOutcome(pf, Padded(j), st.dram, m') && i < rows && c < j.r
    ensures m'(pf.DevAddr(j.dstC) / 2 + ResultAddr(j, i, c)) == Dot(Rows(srcA, j.q), Rows(srcB, j.r), i, c, j.q)
  {
    hide *;
    SizesFacts(j, rows);
    PaddedBounds(j);
    SameBuffers(pf, j);
    FitAddr(j, rows, i, c);
    OutcomeAt(pf, Padded(j), st.dram, m', i, c);
    FitDot(pf, j, rows, srcA, srcB, st, i, c);
  }

  lemma PaddedBounds(j: Job)
    requires j.p % 8 == 0
    ensures Padded(j).p == j.p && j.q <= Padded(j).q && j.r <= Padded(j).r
  {
    PaddedFacts(j);
  }

  lemma CpuNoBias(srcA: seq<int>, srcB: seq<int>, rows: nat, q: nat, r: nat, i: nat, c: nat)
    ensures CpuAt(srcA, srcB, Zeros(rows * r), q, r, i, c) == Dot(Rows(srcA, q), Rows(srcB, r), i, c, q)
  {
    hide Dot, Rows;
    ZeroAt(rows * r, i * r + c);
  }

  lemma OutcomeAt(pf: Platform, j: Job, m: Dram, m': Dram, i: nat, c: nat)
    requires DecoupledOutcome(pf, j, m, m') && i < j.p && c < j.r
    ensures m'(pf.DevAddr(j.dstC) / 2 + ResultAddr(j, i, c)) ==
      Dot(MemPanels(m, pf, j), MemWeights(m, pf, j), i, c, j.q)
  {
    hide ResultAddr, Dot, MemPanels, MemWeights, RowTiles;
    TileOfRow(j, i);
  }

  lemma FitRight(pf: Platform, j: Job, rows: nat, srcA: seq<int>, srcB: seq<int>, st: State)
    requires HostSizes(j, rows) && HostFits(j) && DecoupledBuffers(pf, j) && LaidOut(pf, j, rows, srcA, srcB, st)
    ensures JobRight(pf, j, rows, srcA, srcB, st)
  {
    hide *;
    SizesFacts(j, rows);
    LaidOutIdle(pf, j, rows, srcA, srcB, st);
    ChainRun(pf, j, st);
    var m' := Exec(pf, DecoupledChain(pf, j, OPCODE_MAT_MUL_DECOUPLED_32x1), st).dram;
    FitOutcome(pf, j, rows, st.dram, m');
    FitMatrix(pf, j, rows, srcA, srcB, st, m');
    RightIs(pf, j, rows, srcA, srcB, st);
  }

  lemma SizesFacts(j: Job, rows: nat)
    requires HostSizes(j, rows)
    ensures j.p % 8 == 0 && j.p % 32 == 0 && rows <= j.p
  {
    EightDivides(j.p);
  }

  lemma EightDivides(p: nat)
    requires p % 32 == 0
    ensures p % 8 == 0
  {
    assert p == 8 * (4 * (p / 32));
  }

  lemma LaidOutIdle(pf: Platform, j: Job, rows: nat, srcA: seq<int>, srcB: seq<int>, st: State)
    requires LaidOut(pf, j, rows, srcA, srcB, st)
    ensures st.acc == ZeroAcc() && |srcA| == Area(rows, j.q) && |srcB| == Area(j.q, j.r)
  {
  }

  /** The host reads back what its reference loop computes. */
  ghost predicate JobRight(pf: Platform, j: Job, rows: nat, srcA: seq<int>, srcB: seq<int>, st: State) {
    DecoupledRight(pf, j, rows, srcA, srcB, Exec(pf, DecoupledChain(pf, j, OPCODE_MAT_MUL_DECOUPLED_32x1), st).dram)
  }

  lemma RightIs(pf: Platform, j: Job, rows: nat, srcA: seq<int>, srcB: seq<int>, st: State)
    ensures JobRight(pf, j, rows, srcA, srcB, st) <==>
      DecoupledRight(pf, j, rows, srcA, srcB, Exec(pf, DecoupledChain(pf, j, OPCODE_MAT_MUL_DECOUPLED_32x1), st).dram)
  {
  }

  lemma FitOutcome(pf: Platform, j: Job, rows: nat, m: Dram, m': Dram)
    requires HostSizes(j, rows) && HostFits(j) && (NumTileBlocks(j) > 0 ==> BankGroups(j) > 0)
    requires TilesResult(pf, j, NumTileBlocks(j), m, m')
    ensures DecoupledOutcome(pf, Padded(j), m, m')
  {
    SizesFacts(j, rows);
    hide HostSizes, TilesResult, DecoupledOutcome, TileSizes, HostFits, NumTileBlocks, BankGroups, Padded;
    FitTiles(pf, j, m, m');
    PaddedFacts(j);
    OutcomeOfTiles(pf, Padded(j), m, m');
  }

  lemma FitMatrix(pf: Platform, j: Job, rows: nat, srcA: seq<int>, srcB: seq<int>, st: State, m': Dram)
    requires HostSizes(j, rows) && HostFits(j) && LaidOut(pf, j, rows, srcA, srcB, st)
    requires DecoupledOutcome(pf, Padded(j), st.dram, m')
    ensures DecoupledRight(pf, j, rows, srcA, srcB, m')
  {
    hide HostSizes, HostFits, LaidOut, DecoupledOutcome, DecoupledReadBack, CpuResult, ResultAddr, Dot, CpuAt, Padded,
         Zeros, Rows;
    var x, y := DecoupledReadBack(pf, j, rows, m'), CpuResult(srcA, srcB, Zeros(rows * j.r), rows, j.q, j.r);
    forall d | 0 <= d < rows * j.r ensures x[d] == y[d] {
      var i, c := RowAndCol(d, rows, j.r);
      ReadBackCell(pf, j, rows, m', i, c);
      CpuCell(srcA, srcB, Zeros(rows * j.r), rows, j.q, j.r, i, c);
      CpuNoBias(srcA, srcB, rows, j.q, j.r, i, c);
      FitElement(pf, j, rows, srcA, srcB, st, m', i, c);
    }
    assert x == y;
  }
}
