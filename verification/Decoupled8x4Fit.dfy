/**
 Sizes for which the host's 8x4 job is right. In this mode the host packs A without padding its columns but
 still pads the weights, and the driver takes its cursors modulo the unpadded sizes.
 */
module Decoupled8x4Fit {
  import opened Arith
  import opened Sums
  import opened Machine
  import opened DescMem
  import opened Decoupled
  import opened DecoupledRuns
  import opened DecoupledResults
  import opened DecoupledHost
  import opened DecoupledEndToEnd
  import opened DecoupledFit
  import opened DecoupledExact
  import opened GemmHost
  import opened GemmEndToEnd

  /** A job of the 8x4 mode whose input layout is gapless. */
  predicate Sizes8x4(j: Job) {
    j.p % 8 == 0 && j.p % 32 != 0 && j.q % 4 == 0 && j.q > 0 && j.r > 0
  }

  /** A is packed, B padded to whole blocks; the device is idle. */
  ghost predicate LaidOut8x4(pf: Platform, j: Job, srcA: seq<int>, srcB: seq<int>, st: State) {
    && |srcA| == Area(j.p, j.q) && |srcB| == Area(j.q, j.r)
    && Loaded(st.dram, pf.DevAddr(j.srcA) / 2, PanelLayout(j, srcA, j.p))
    && Loaded(st.dram, pf.DevAddr(j.srcB) / 2, WeightLayout(Padded(j), Widened(srcB, j.q, j.r, Padded(j).r)))
    && st.acc == ZeroAcc()
  }

  /** Whole weight blocks, or one row tile without a wrap, or one weight block that the wrap always hits again. */
  predicate Fits8x4(j: Job) {
    || (j.q % 32 == 0 && j.r % 16 == 0)
    || (j.p < 32 && 512 * (BankGroups(j) * Steps(j) - 1) < j.q * j.r)
    || (j.r == 16 && (j.q == 4 || j.q == 8 || j.q == 16))
  }

  // ----- cursors

  /** The panel cursor never wraps. */
  lemma RowCursor(j: Job, t: nat, k: nat)
    requires j.p % 8 == 0 && t < RowTiles(j) && k < Steps(j)
    ensures PanelOffset(j, t, k) == 32 * t * j.q + k * (32 * TileRows(j, 32 * t))
  {
    TileRowsFacts(j, t);
    StepStep(j, k);
    hide RowTiles, TileRows, Steps;
    RowCursorBound(j.p, j.q, t, TileRows(j, 32 * t), k);
  }

  lemma RowCursorBound(p: nat, q: nat, t: nat, h: nat, k: nat)
    requires 32 * t + h <= p && 32 * k < q && h > 0
    ensures p * q > 0 && (32 * t * q + k * (32 * h)) % (p * q) == 32 * t * q + k * (32 * h)
  {
    MulMono(32 * k + 1, q, h);
    assert (32 * k + 1) * h == k * (32 * h) + h;
    MulMono(32 * t + h, p, q);
    assert (32 * t + h) * q == 32 * t * q + h * q;
    NoWrap(32 * t * q + k * (32 * h), p * q);
  }

  lemma FitCursors8x4(j: Job)
    requires Sizes8x4(j) && Fits8x4(j)
    ensures CursorsRight(j)
  {
    hide Fits8x4, RowTiles, BankGroups, Steps, TileRows, PanelOffset, WeightOffset, TileNo;
    forall t: nat, g: nat, k: nat | t < RowTiles(j) && g < BankGroups(j) && k < Steps(j)
      ensures CursorRight(j, t, g, k)
    {
      RowCursor(j, t, k);
      FitWeights(j, t, g, k);
    }
  }

  lemma FitWeights(j: Job, t: nat, g: nat, k: nat)
    requires Sizes8x4(j) && Fits8x4(j) && t < RowTiles(j) && g < BankGroups(j) && k < Steps(j)
    ensures WeightOffset(j, TileNo(j, t, g), k) == 512 * (g * Steps(j) + k)
  {
    if j.q % 32 == 0 && j.r % 16 == 0 {
      WeightCursor(j, t, g, k);
    } else if j.p < 32 {
      TileStep(j, t);
      hide RowTiles, BankGroups, Steps;
      LastWeights(BankGroups(j), Steps(j), g, k, j.q * j.r);
      WeightUnwrapped(j, g, k);
    } else {
      OneBlock(j);
      hide RowTiles, BankGroups, Steps;
      BlockAgain(j.q, t);
    }
  }

  lemma OneBlock(j: Job)
    requires j.r == 16 && 0 < j.q <= 32
    ensures BankGroups(j) == 1 && Steps(j) == 1
  {
  }

  /** The size of B divides the block size. */
  lemma BlockAgain(q: nat, t: nat)
    requires q == 4 || q == 8 || q == 16
    ensures (512 * t) % (q * 16) == 0
  {
    var n := if q == 4 then 8 * t else if q == 8 then 4 * t else 2 * t;
    assert 512 * t == n * (q * 16);
    DivMod(n, 0, q * 16);
  }

  /** For sizes that fit nothing outside the host's buffers is read, though more than the packed panels. */
  lemma FitBuffers8x4(pf: Platform, j: Job)
    requires Sizes8x4(j) && Fits8x4(j) && HostBuffers(pf, j)
    ensures DecoupledBuffers(pf, j)
  {
    FitExtents8x4(j);
    hide PanelExtent, WeightExtent, ResultExtent, Padded, Fits8x4;
  }

  lemma FitExtents8x4(j: Job)
    requires Sizes8x4(j) && Fits8x4(j)
    ensures PanelExtent(j) <= j.p * Padded(j).q && WeightExtent(j) <= Padded(j).q * Padded(j).r
  {
    hide *;
    forall t: nat, k: nat | t < RowTiles(j) && k < Steps(j) ensures PanelEnd(j, t, k) <= j.p * Padded(j).q {
      FitPanel8x4(j, t, k);
    }
    PanelsBound(j, j.p * Padded(j).q);
    forall n: nat, k: nat | n < NumTileBlocks(j) && k < Steps(j)
      ensures WeightEnd(j, n, k) <= Padded(j).q * Padded(j).r
    {
      FitBlock8x4(j, n, k);
    }
    WeightsBound(j, Padded(j).q * Padded(j).r);
  }

  lemma FitPanel8x4(j: Job, t: nat, k: nat)
    requires Sizes8x4(j) && t < RowTiles(j) && k < Steps(j)
    ensures PanelEnd(j, t, k) <= j.p * Padded(j).q
  {
    LayoutSizes8x4(j);
    RowCursor(j, t, k);
    TileRowsFacts(j, t);
    PaddedSteps(j);
    CountsPositive(j);
    hide Sizes8x4, RowTiles, TileRows, Steps, PanelOffset, Padded;
    PanelRoom(j.p, j.q, Steps(j), t, TileRows(j, 32 * t), k);
  }

  lemma PanelRoom(p: nat, q: nat, S: nat, t: nat, h: nat, k: nat)
    requires 32 * t + h <= p && k < S && q <= 32 * S
    ensures 32 * t * q + k * (32 * h) + 32 * h <= p * (32 * S)
  {
    MulMono(k + 1, S, 32 * h);
    assert (k + 1) * (32 * h) == k * (32 * h) + 32 * h;
    assert S * (32 * h) == h * (32 * S);
    MulMono(q, 32 * S, 32 * t);
    assert q * (32 * t) == 32 * t * q;
    MulMono(32 * t + h, p, 32 * S);
    assert (32 * t + h) * (32 * S) == (32 * S) * (32 * t) + h * (32 * S);
  }

  lemma FitBlock8x4(j: Job, n: nat, k: nat)
    requires Sizes8x4(j) && Fits8x4(j) && n < NumTileBlocks(j) && k < Steps(j)
    ensures WeightEnd(j, n, k) <= Padded(j).q * Padded(j).r
  {
    PaddedSteps(j);
    hide Sizes8x4, Fits8x4, RowTiles, BankGroups, Steps, WeightOffset, Padded, TileNo, NumTileBlocks;
    var t, g := BlockOfNo(j, n);
    FitWeights(j, t, g, k);
    RowMajorBound(g, BankGroups(j), k, Steps(j));
    assert (32 * Steps(j)) * (16 * BankGroups(j)) == 512 * (BankGroups(j) * Steps(j));
  }

  // ----- results

  /** The host looks for element (i, c) in row i % 32 and bank c % 16 of block (i / 32, c / 16). */
  lemma ReadPlace(j: Job, i: nat, c: nat)
    requires Sizes8x4(j) && Fits8x4(j) && i < j.p && c < j.r
    ensures i / 32 < RowTiles(j) && c / 16 < BankGroups(j)
    ensures ResultAddr(j, i, c) == 512 * TileNo(j, i / 32, c / 16) + ((c % 16) * 32 + i % 32)
  {
    TileStep(j, i / 32);
    GroupStep(j, c / 16);
    if j.r % 16 == 0 {
      WholeGroups(j);
      hide RowTiles, BankGroups, Fits8x4;
      ResultIndex(BankGroups(j), RowTiles(j), i / 32, i % 32, c / 16, c % 16);
    } else {
      hide RowTiles, BankGroups, Steps;
    }
  }

  lemma WholeGroups(j: Job)
    requires j.r % 16 == 0
    ensures j.r == 16 * BankGroups(j)
  {
  }

  lemma SameWeights(pf: Platform, j: Job, m: Dram, k: nat, c: nat)
    ensures MemWeights(m, pf, j)(k, c) == MemWeights(m, pf, Padded(j))(k, c)
  {
    SameCounts(j);
    SameBuffers(pf, j);
    hide Steps, Padded;
  }

  /** The weights in memory: the matrix, and zeros below it. */
  lemma PaddedWeight(pf: Platform, j: Job, srcB: seq<int>, m: Dram, k: nat, c: nat)
    requires j.p % 8 == 0 && |srcB| == Area(j.q, j.r) && c < j.r && k < 32 * Steps(j)
    requires Loaded(m, pf.DevAddr(j.srcB) / 2, WeightLayout(Padded(j), Widened(srcB, j.q, j.r, Padded(j).r)))
    ensures MemWeights(m, pf, j)(k, c) == if k < j.q then Rows(srcB, j.r)(k, c) else 0
  {
    PaddedSizes(j);
    PaddedBounds(j);
    PaddedSteps(j);
    SameBuffers(pf, j);
    SameWeights(pf, j, m, k, c);
    hide WeightLayout, Widened, Loaded, TileSizes, MemWeights, Area, Padded, Steps, Rows;
    LoadedWeight(pf, Padded(j), Widened(srcB, j.q, j.r, Padded(j).r), m, k, c);
    WideRow(srcB, j.q, j.r, Padded(j).r, k, c);
  }

  lemma LayoutSizes8x4(j: Job)
    requires Sizes8x4(j)
    ensures LayoutSizes(j) && j.p % 8 == 0 && j.q > 0 && j.r > 0
  {
  }

  /** The zero rows below B cancel whatever the panels hold there. */
  lemma WholeDot(pf: Platform, j: Job, srcA: seq<int>, srcB: seq<int>, st: State, i: nat, c: nat)
    requires Sizes8x4(j) && LaidOut8x4(pf, j, srcA, srcB, st) && i < j.p && c < j.r
    ensures j.q <= 32 * Steps(j)
    ensures Dot(MemPanels(st.dram, pf, j), MemWeights(st.dram, pf, j), i, c, 32 * Steps(j)) ==
      Dot(Rows(srcA, j.q), Rows(srcB, j.r), i, c, j.q)
  {
    LayoutSizes8x4(j);
    CountsPositive(j);
    hide Sizes8x4, LayoutSizes, PanelLayout, WeightLayout, Loaded, MemPanels, MemWeights, Rows, Dot, Widened, Area,
         Padded, Steps;
    var A, B := MemPanels(st.dram, pf, j), MemWeights(st.dram, pf, j);
    forall k: nat {:trigger B(k, c)} | k < 32 * Steps(j)
      ensures B(k, c) == if k < j.q then Rows(srcB, j.r)(k, c) else 0
    {
      PaddedWeight(pf, j, srcB, st.dram, k, c);
    }
    forall k: nat {:trigger A(i, k)} | k < j.q ensures A(i, k) == Rows(srcA, j.q)(i, k) {
      LoadedPanel(pf, j, j.p, srcA, st.dram, i, k);
    }
    DotExt(A, B, i, c, Rows(srcA, j.q), Rows(srcB, j.r), i, c, j.q);
    ZeroRows(A, B, i, c, j.q, 32 * Steps(j));
  }

  lemma {:induction false} ZeroRows(A: Matrix, B: Matrix, i: int, c: int, q: nat, n: nat)
    requires q <= n && forall k: nat {:trigger B(k, c)} :: q <= k < n ==> B(k, c) == 0
    ensures Dot(A, B, i, c, n) == Dot(A, B, i, c, q)
  {
    if q < n {
      ZeroRows(A, B, i, c, q, n - 1);
      assert B(n - 1, c) == 0;
    }
  }

  lemma FitElement8x4(pf: Platform, j: Job, srcA: seq<int>, srcB: seq<int>, st: State, m': Dram, i: nat, c: nat)
    requires Sizes8x4(j) && Fits8x4(j) && LaidOut8x4(pf, j, srcA, srcB, st) && i < j.p && c < j.r
    requires NumTileBlocks(j) > 0 ==> BankGroups(j) > 0
    requires TilesResult(pf, j, NumTileBlocks(j), st.dram, m')
    ensures m'(pf.DevAddr(j.dstC) / 2 + ResultAddr(j, i, c)) == Dot(Rows(srcA, j.q), Rows(srcB, j.r), i, c, j.q)
  {
    hide *;
    LayoutSizes8x4(j);
    ReadPlace(j, i, c);
    TileOfRow(j, i);
    RowInTile(j, i);
    BankAndRow(i % 32, c % 16);
    FitCursors8x4(j);
    CellRead(pf, j, st.dram, m', i / 32, c / 16, (c % 16) * 32 + i % 32);
    TileSumDot(pf, j, st.dram, i / 32, c / 16, Steps(j), (c % 16) * 32 + i % 32);
    Remainders(i, c);
    WholeDot(pf, j, srcA, srcB, st, i, c);
  }

  lemma FitRight8x4(pf: Platform, j: Job, srcA: seq<int>, srcB: seq<int>, st: State)
    requires Sizes8x4(j) && Fits8x4(j) && DecoupledBuffers(pf, j) && LaidOut8x4(pf, j, srcA, srcB, st)
    ensures JobRight(pf, j, j.p, srcA, srcB, st)
  {
    hide *;
    LayoutSizes8x4(j);
    LaidOutIdle8x4(pf, j, srcA, srcB, st);
    ChainRun(pf, j, st);
    var m' := Exec(pf, DecoupledChain(pf, j, OPCODE_MAT_MUL_DECOUPLED_32x1), st).dram;
    FitMatrix8x4(pf, j, srcA, srcB, st, m');
    RightIs(pf, j, j.p, srcA, srcB, st);
  }

  lemma LaidOutIdle8x4(pf: Platform, j: Job, srcA: seq<int>, srcB: seq<int>, st: State)
    requires LaidOut8x4(pf, j, srcA, srcB, st)
    ensures st.acc == ZeroAcc()
  {
  }

  lemma FitMatrix8x4(pf: Platform, j: Job, srcA: seq<int>, srcB: seq<int>, st: State, m': Dram)
    requires Sizes8x4(j) && Fits8x4(j) && LaidOut8x4(pf, j, srcA, srcB, st)
    requires NumTileBlocks(j) > 0 ==> BankGroups(j) > 0
    requires TilesResult(pf, j, NumTileBlocks(j), st.dram, m')
    ensures DecoupledRight(pf, j, j.p, srcA, srcB, m')
  {
    hide Sizes8x4, Fits8x4, LaidOut8x4, TilesResult, DecoupledReadBack, CpuResult, ResultAddr, CpuAt, NumTileBlocks,
         BankGroups, Dot, Rows, Zeros;
    var x, y := DecoupledReadBack(pf, j, j.p, m'), CpuResult(srcA, srcB, Zeros(j.p * j.r), j.p, j.q, j.r);
    forall d | 0 <= d < j.p * j.r ensures x[d] == y[d] {
      var i, c := RowAndCol(d, j.p, j.r);
      ReadBackCell(pf, j, j.p, m', i, c);
      CpuCell(srcA, srcB, Zeros(j.p * j.r), j.p, j.q, j.r, i, c);
      CpuNoBias(srcA, srcB, j.p, j.q, j.r, i, c);
      FitElement8x4(pf, j, srcA, srcB, st, m', i, c);
    }
    assert x == y;
  }
}
