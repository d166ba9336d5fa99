/**
 On padded sizes, what the chain of `matmul_decoupled` computes is the matrix product, in either mode, on
 panels, weights and results laid out the way the host lays them out.
 */
module DecoupledResults {
  import opened Arith
  import opened Sums
  import opened Machine
  import opened DescMem
  import opened Decoupled
  import opened DecoupledRuns

  /** Input layout: row tile after row tile, each a panel of its own height. */
  function PanelAddr(j: Job, i: nat, k: nat): nat {
    (i / 32) * (32 * j.q) + PanelPos(JobMode(j), TileRows(j, 32 * (i / 32)), i % 32, k)
  }

  /** Weight layout: 16 columns by 32 rows at a time, column groups outermost. */
  function WeightAddr(j: Job, k: nat, c: nat): nat {
    ((c / 16) * Steps(j) + k / 32) * 512 + ((c % 16) * 32 + k % 32)
  }

  /** Result layout: row tiles of 32, within a tile column by column. */
  function ResultAddr(j: Job, i: nat, c: nat): nat {
    (i / 32) * (32 * j.r) + c * 32 + i % 32
  }

  function MemPanels(m: Dram, pf: Platform, j: Job): Matrix {
    (i: int, k: int) => if i < 0 || k < 0 then 0 else m(pf.DevAddr(j.srcA) / 2 + PanelAddr(j, i, k))
  }

  function MemWeights(m: Dram, pf: Platform, j: Job): Matrix {
    (k: int, c: int) => if k < 0 || c < 0 then 0 else m(pf.DevAddr(j.srcB) / 2 + WeightAddr(j, k, c))
  }

  /** In row tile t, column group g and step k both cursors point where the layouts put that step's data. */
  predicate CursorRight(j: Job, t: nat, g: nat, k: nat) {
    && PanelOffset(j, t, k) == 32 * t * j.q + k * (32 * TileRows(j, 32 * t))
    && WeightOffset(j, TileNo(j, t, g), k) == 512 * (g * Steps(j) + k)
  }

  ghost predicate CursorsRight(j: Job) {
    && j.p % 8 == 0
    && forall t: nat, g: nat, k: nat {:trigger CursorRight(j, t, g, k)} ::
         t < RowTiles(j) && g < BankGroups(j) && k < Steps(j) ==> CursorRight(j, t, g, k)
  }

  lemma PaddedCursors(j: Job)
    requires TileSizes(j)
    ensures CursorsRight(j)
  {
    hide RowTiles, TileRows, TileSizes, Steps, BankGroups, TileNo;
    assert j.p % 8 == 0 by { PaddedTall(j); }
    forall t: nat, g: nat, k: nat | t < RowTiles(j) && g < BankGroups(j) && k < Steps(j)
      ensures CursorRight(j, t, g, k)
    {
      PanelCursor(j, t, k);
      WeightCursor(j, t, g, k);
    }
  }

  lemma PaddedTall(j: Job)
    requires TileSizes(j)
    ensures j.p % 8 == 0
  {
  }

  // ----- one load/stream pair

  /** Columns 32 * k on of a panel start 32 * h * k elements into it. */
  lemma PanelShift(opcode: nat, h: nat, row: nat, k: nat, c: nat)
    ensures PanelPos(opcode, h, row, 32 * k + c) == k * (32 * h) + PanelPos(opcode, h, row, c)
  {
    assert (32 * k + c) / 4 == 8 * k + c / 4 && (32 * k + c) % 4 == c % 4;
    assert (8 * k + c / 4) * (4 * h) == k * (32 * h) + (c / 4) * (4 * h);
    assert (32 * k + c) * h == k * (32 * h) + c * h;
  }

  /** A position in a 32-column panel is inside the panel. */
  lemma PanelInside(opcode: nat, h: nat, row: nat, c: nat)
    requires row < h && c < 32 && (opcode == OPCODE_MAT_MUL_DECOUPLED_8x4 ==> h % 8 == 0)
    ensures PanelPos(opcode, h, row, c) < 32 * h
  {
    if opcode == OPCODE_MAT_MUL_DECOUPLED_8x4 {
      Inside8x4(h, row, c);
    } else {
      RowMajorBound(c, 32, row, h);
    }
  }

  lemma Inside8x4(h: nat, row: nat, c: nat)
    requires row < h && c < 32 && h % 8 == 0
    ensures Pos8x4(h, row, c) < 32 * h
  {
    MulMono(c / 4, 7, 4 * h);
    assert row / 8 + 1 <= h / 8;
    assert (c % 4) * 8 + row % 8 < 32;
  }

  /** Row `row` of tile t, column 32 * k + c: element PanelPos(row, c) of the k'th panel of the tile. */
  lemma PanelAddrOf(j: Job, t: nat, row: nat, k: nat, c: nat)
    requires j.p % 8 == 0 && t < RowTiles(j) && row < TileRows(j, 32 * t) && c < 32
    ensures var h := TileRows(j, 32 * t); var pos := PanelPos(JobMode(j), h, row, c);
      pos < 32 * h && PanelAddr(j, 32 * t + row, 32 * k + c) == 32 * t * j.q + k * (32 * h) + pos
  {
    TileRowsFacts(j, t);
    hide RowTiles, TileRows, PanelPos;
    var h := TileRows(j, 32 * t);
    assert (32 * t + row) / 32 == t && (32 * t + row) % 32 == row;
    PanelShift(JobMode(j), h, row, k, c);
    PanelInside(JobMode(j), h, row, c);
    assert t * (32 * j.q) == 32 * t * j.q;
  }

  /** The panel value the device reads for row x % 32 and column c of step k. */
  lemma PanelValue(pf: Platform, j: Job, m: Dram, t: nat, g: nat, k: nat, row: nat, c: nat)
    requires j.p % 8 == 0 && t < RowTiles(j) && row < TileRows(j, 32 * t) && c < 32 && CursorRight(j, t, g, k)
    ensures At(PanelRead(m, pf, j, t, k), PanelPos(JobMode(j), TileRows(j, 32 * t), row, c)) ==
      MemPanels(m, pf, j)(32 * t + row, 32 * k + c)
  {
    hide RowTiles, TileRows, PanelPos, PanelAddr, JobMode, Steps, PanelOffset, WeightOffset, TileNo;
    PanelAddrOf(j, t, row, k, c);
  }

  /** The weight the device holds for bank b and column c of step k. */
  lemma WeightValue(pf: Platform, j: Job, m: Dram, t: nat, g: nat, k: nat, b: nat, c: nat)
    requires b < 16 && c < 32 && CursorRight(j, t, g, k)
    ensures At(WeightRead(m, pf, j, TileNo(j, t, g), k), b * 32 + c) == MemWeights(m, pf, j)(32 * k + c, 16 * g + b)
  {
    WeightAddrOf(j, g, k, b, c);
    hide Steps, TileRows, TileNo, WeightAddr, PanelOffset, WeightOffset;
  }

  lemma WeightAddrOf(j: Job, g: nat, k: nat, b: nat, c: nat)
    requires b < 16 && c < 32
    ensures WeightAddr(j, 32 * k + c, 16 * g + b) == 512 * (g * Steps(j) + k) + (b * 32 + c)
  {
    hide Steps;
    assert (16 * g + b) / 16 == g && (16 * g + b) % 16 == b;
    assert (32 * k + c) / 32 == k && (32 * k + c) % 32 == c;
  }

  lemma PairTerms(pf: Platform, j: Job, m: Dram, t: nat, g: nat, k: nat, x: nat)
    requires CursorsRight(j) && t < RowTiles(j) && g < BankGroups(j) && k < Steps(j)
    requires x < ACC_SIZE && x % 32 < TileRows(j, 32 * t)
    ensures var f := DecoupledTerm(JobMode(j), WeightRead(m, pf, j, TileNo(j, t, g), k), PanelRead(m, pf, j, t, k),
      TileRows(j, 32 * t), x);
      forall c {:trigger f(c)} :: 0 <= c < 32 ==>
        f(c) == Product(MemPanels(m, pf, j), MemWeights(m, pf, j), 32 * t + x % 32, 16 * g + x / 32, 32 * k + c)
  {
    hide RowTiles, BankGroups, Steps, TileRows, PanelPos, WeightRead, PanelRead, MemPanels, MemWeights, JobMode,
         TileNo, CursorRight;
    assert CursorRight(j, t, g, k);
    var f := DecoupledTerm(JobMode(j), WeightRead(m, pf, j, TileNo(j, t, g), k), PanelRead(m, pf, j, t, k),
      TileRows(j, 32 * t), x);
    forall c | 0 <= c < 32
      ensures f(c) == Product(MemPanels(m, pf, j), MemWeights(m, pf, j), 32 * t + x % 32, 16 * g + x / 32, 32 * k + c)
    {
      PanelValue(pf, j, m, t, g, k, x % 32, c);
      WeightValue(pf, j, m, t, g, k, x / 32, c);
    }
  }

  /** Where the cursors are right, after k steps an accumulator holds the first 32 * k terms of its dot product. */
  lemma {:induction false} TileSumDot(pf: Platform, j: Job, m: Dram, t: nat, g: nat, k: nat, x: nat)
    requires CursorsRight(j) && t < RowTiles(j) && g < BankGroups(j) && k <= Steps(j) && x < 512
    ensures TileSum(m, pf, j, t, TileNo(j, t, g), k, x) ==
      if x % 32 < TileRows(j, 32 * t) then Dot(MemPanels(m, pf, j), MemWeights(m, pf, j), 32 * t + x % 32,
        16 * g + x / 32, 32 * k) else 0
  {
    hide RowTiles, BankGroups, Steps, TileRows, WeightRead, PanelRead, MemPanels, MemWeights, JobMode, TileNo,
         CursorsRight, DecoupledTerm, Sum, Product;
    if k > 0 && x % 32 < TileRows(j, 32 * t) {
      TileSumDot(pf, j, m, t, g, k - 1, x);
      PairTerms(pf, j, m, t, g, k - 1, x);
      hide Dot;
      DotSplit(MemPanels(m, pf, j), MemWeights(m, pf, j), 32 * t + x % 32, 16 * g + x / 32, 32 * (k - 1),
               DecoupledTerm(JobMode(j), WeightRead(m, pf, j, TileNo(j, t, g), k - 1), PanelRead(m, pf, j, t, k - 1),
                 TileRows(j, 32 * t), x), 32);
    }
  }

  // ----- the result

  /** Sizes for which the host's input layout is gapless: in 8x4 mode columns go four at a time. */
  predicate LayoutSizes(j: Job) {
    j.p % 8 == 0 && (j.p % 32 != 0 ==> j.q % 4 == 0)
  }

  lemma PaddedLayout(j: Job)
    requires TileSizes(j)
    ensures LayoutSizes(j)
  {
  }

  /** A position in row tile t is inside the tile. */
  lemma PosInTile(opcode: nat, h: nat, row: nat, k: nat, q: nat)
    requires row < h && k < q && (opcode == OPCODE_MAT_MUL_DECOUPLED_8x4 ==> h % 8 == 0 && q % 4 == 0)
    ensures PanelPos(opcode, h, row, k) < h * q
  {
    if opcode == OPCODE_MAT_MUL_DECOUPLED_8x4 {
      QuarterBound(h, row, k, q / 4);
    } else {
      RowMajorBound(k, q, row, h);
    }
  }

  lemma QuarterBound(h: nat, row: nat, k: nat, n: nat)
    requires row < h && k < 4 * n && h % 8 == 0
    ensures Pos8x4(h, row, k) < h * (4 * n)
  {
    MulMono(k / 4 + 1, n, 4 * h);
    assert (k / 4 + 1) * (4 * h) == (k / 4) * (4 * h) + 4 * h;
    assert row / 8 + 1 <= h / 8;
    assert n * (4 * h) == h * (4 * n);
  }

  lemma LayoutMode(j: Job)
    requires LayoutSizes(j)
    ensures JobMode(j) == OPCODE_MAT_MUL_DECOUPLED_8x4 ==> j.q % 4 == 0
  {
  }

  lemma PanelAddrBound(j: Job, t: nat, row: nat, k: nat)
    requires LayoutSizes(j) && t < RowTiles(j) && row < TileRows(j, 32 * t) && k < j.q
    ensures var h, pos := TileRows(j, 32 * t), PanelPos(JobMode(j), TileRows(j, 32 * t), row, k);
      && h <= 32 && h % 8 == 0 && pos < h * j.q && h * j.q <= 32 * j.q
      && PanelAddr(j, 32 * t + row, k) == t * (32 * j.q) + pos < j.p * j.q
  {
    TileRowsFacts(j, t);
    LayoutMode(j);
    hide RowTiles, TileRows, PanelPos, JobMode, LayoutSizes;
    var h := TileRows(j, 32 * t);
    PosInTile(JobMode(j), h, row, k, j.q);
    RowOfTile(t, row);
    TileInside(j.p, j.q, t, h);
  }

  lemma RowOfTile(t: nat, row: nat)
    requires row < 32
    ensures (32 * t + row) / 32 == t && (32 * t + row) % 32 == row
  {
  }

  lemma TileInside(p: nat, q: nat, t: nat, h: nat)
    requires 32 * t + h <= p && h <= 32
    ensures t * (32 * q) + h * q <= p * q && h * q <= 32 * q
  {
    MulMono(32 * t + h, p, q);
    MulMono(h, 32, q);
    assert (32 * t + h) * q == t * (32 * q) + h * q;
  }

  lemma ResultAddrSplit(j: Job, i: nat, c: nat)
    requires TileSizes(j) && i < 32 * RowTiles(j) && c < j.r
    ensures i / 32 < RowTiles(j) && c / 16 < BankGroups(j)
    ensures ResultAddr(j, i, c) == 512 * TileNo(j, i / 32, c / 16) + ((c % 16) * 32 + i % 32) < ResultExtent(j)
  {
    WeightCount(j);
    hide BankGroups, RowTiles, TileSizes;
    ResultIndex(BankGroups(j), RowTiles(j), i / 32, i % 32, c / 16, c % 16);
  }

  /** Element (i, c) of the result layout is row i % 32, bank c % 16 of one result block. */
  lemma ResultCell(pf: Platform, j: Job, m: Dram, i: nat, c: nat)
    requires TileSizes(j) && i < 32 * RowTiles(j) && c < j.r
    ensures BankGroups(j) > 0 && ResultAddr(j, i, c) < ResultExtent(j)
    ensures TileCell(m, pf, j, ResultAddr(j, i, c)) ==
      if i < j.p then Dot(MemPanels(m, pf, j), MemWeights(m, pf, j), i, c, j.q) else 0
  {
    hide *;
    ResultAddrSplit(j, i, c);
    BankAndRow(i % 32, c % 16);
    TileCellAt(pf, j, m, i / 32, c / 16, (c % 16) * 32 + i % 32);
    TileSumAt(pf, j, m, i, c);
  }

  lemma TileSumAt(pf: Platform, j: Job, m: Dram, i: nat, c: nat)
    requires TileSizes(j) && i < 32 * RowTiles(j) && c < j.r
    ensures (c % 16) * 32 + i % 32 < 512
    ensures TileSum(m, pf, j, i / 32, TileNo(j, i / 32, c / 16), Steps(j), (c % 16) * 32 + i % 32) ==
      if i < j.p then Dot(MemPanels(m, pf, j), MemWeights(m, pf, j), i, c, j.q) else 0
  {
    hide *;
    BankAndRow(i % 32, c % 16);
    PaddedLayout(j);
    RowInTile(j, i);
    ResultAddrSplit(j, i, c);
    PaddedCursors(j);
    TileSumDot(pf, j, m, i / 32, c / 16, Steps(j), (c % 16) * 32 + i % 32);
    WeightCount(j);
    Remainders(i, c);
  }

  lemma Remainders(i: nat, c: nat)
    ensures 32 * (i / 32) + i % 32 == i && 16 * (c / 16) + c % 16 == c
  {
  }

  lemma BankAndRow(row: nat, b: nat)
    requires row < 32 && b < 16
    ensures b * 32 + row < 512 && (b * 32 + row) % 32 == row && (b * 32 + row) / 32 == b
  {
  }

  lemma RowInTile(j: Job, i: nat)
    requires LayoutSizes(j) && i < 32 * RowTiles(j)
    ensures i % 32 < TileRows(j, 32 * (i / 32)) <==> i < j.p
  {
    TileRowsFacts(j, i / 32);
    hide TileRows;
  }

  lemma ResultIndex(R: nat, T: nat, t: nat, row: nat, g: nat, b: nat)
    requires t < T && g < R && row < 32 && b < 16
    ensures t * (32 * (16 * R)) + (16 * g + b) * 32 + row == 512 * (t * R + g) + (b * 32 + row) < 512 * (T * R)
  {
    RowMajorBound(t, T, g, R);
    assert t * (32 * (16 * R)) == 512 * (t * R);
  }

  /** The result buffer holds the matrix product, padding rows zero; the rest of DRAM is untouched. */
  ghost predicate DecoupledOutcome(pf: Platform, j: Job, m: Dram, m': Dram) {
    var c0 := pf.DevAddr(j.dstC) / 2;
    && (forall i: nat, c: nat {:trigger ResultAddr(j, i, c)} :: i < 32 * RowTiles(j) && c < j.r ==>
          m'(c0 + ResultAddr(j, i, c)) ==
            if i < j.p then Dot(MemPanels(m, pf, j), MemWeights(m, pf, j), i, c, j.q) else 0)
    && (forall y {:trigger m'(y)} :: !(c0 <= y < c0 + ResultExtent(j)) ==> m'(y) == m(y))
  }

  lemma OutcomeOfTiles(pf: Platform, j: Job, m: Dram, m': Dram)
    requires TileSizes(j) && (NumTileBlocks(j) > 0 ==> BankGroups(j) > 0)
    requires TilesResult(pf, j, NumTileBlocks(j), m, m')
    ensures DecoupledOutcome(pf, j, m, m')
  {
    hide BankGroups, NumTileBlocks, RowTiles, TileCell, ResultAddr, Dot, TileSizes;
    forall i: nat, c: nat {:trigger ResultAddr(j, i, c)} | i < 32 * RowTiles(j) && c < j.r
      ensures m'(pf.DevAddr(j.dstC) / 2 + ResultAddr(j, i, c)) ==
        if i < j.p then Dot(MemPanels(m, pf, j), MemWeights(m, pf, j), i, c, j.q) else 0
    {
      ResultCell(pf, j, m, i, c);
    }
  }

  /**
   `matmul_decoupled`, for every padded size and in both modes: with panels and weights laid out as the
   host lays them out, the chain leaves the matrix product in the result layout.
   */
  lemma DecoupledCorrect(pf: Platform, j: Job, st: State)
    requires DecoupledBuffers(pf, j) && TileSizes(j) && st.acc == ZeroAcc()
    ensures var st' := Exec(pf, DecoupledChain(pf, j, OPCODE_MAT_MUL_DECOUPLED_32x1), st);
      st'.acc == ZeroAcc() && st'.hpcCleared && DecoupledOutcome(pf, j, st.dram, st'.dram)
  {
    assert j.p % 8 == 0;
    hide *;
    ChainRun(pf, j, st);
    OutcomeOfTiles(pf, j, st.dram, Exec(pf, DecoupledChain(pf, j, OPCODE_MAT_MUL_DECOUPLED_32x1), st).dram);
  }

  lemma CellRead(pf: Platform, j: Job, m: Dram, m': Dram, t: nat, g: nat, x: nat)
    requires t < RowTiles(j) && g < BankGroups(j) && x < 512 && TilesResult(pf, j, NumTileBlocks(j), m, m')
    ensures m'(pf.DevAddr(j.dstC) / 2 + (512 * TileNo(j, t, g) + x)) ==
      TileSum(m, pf, j, t, TileNo(j, t, g), Steps(j), x)
  {
    hide RowTiles, BankGroups, Steps, TileNo, TileCell, NumTileBlocks;
    TileIndex(j, t, g);
    TileCellAt(pf, j, m, t, g, x);
  }

  // ----- what is written

  /** The elements of p rows by whole bank groups: what the host allocates for the result. */
  function HostResultArea(j: Job): int { j.p * (16 * BankGroups(j)) }

  /** On every DRAM the chain leaves alone what lies outside that area. */
  ghost predicate StaysInside(pf: Platform, j: Job) {
    forall st: State, y: int {:trigger Exec(pf, DecoupledChain(pf, j, OPCODE_MAT_MUL_DECOUPLED_32x1), st).dram(y)} ::
      st.acc == ZeroAcc() && !(pf.DevAddr(j.dstC) / 2 <= y < pf.DevAddr(j.dstC) / 2 + HostResultArea(j)) ==>
        Exec(pf, DecoupledChain(pf, j, OPCODE_MAT_MUL_DECOUPLED_32x1), st).dram(y) == st.dram(y)
  }

  /** Result blocks are 32 rows high, also in a lower tile: the write-back leaves the area exactly for partial tiles. */
  lemma DecoupledInside(pf: Platform, j: Job)
    requires DecoupledBuffers(pf, j) && j.p % 8 == 0
    ensures StaysInside(pf, j) <==> j.p % 32 == 0 || j.r == 0
  {
    BlocksArea(j);
    hide Exec, DecoupledChain, DecoupledBuffers, TilesResult, HostResultArea, ResultExtent;
    if j.p % 32 == 0 || j.r == 0 {
      forall st: State, y: int
        | st.acc == ZeroAcc() && !(pf.DevAddr(j.dstC) / 2 <= y < pf.DevAddr(j.dstC) / 2 + HostResultArea(j))
        ensures Exec(pf, DecoupledChain(pf, j, OPCODE_MAT_MUL_DECOUPLED_32x1), st).dram(y) == st.dram(y)
      {
        OutsideBlocks(pf, j, st, y);
      }
    } else {
      var y := pf.DevAddr(j.dstC) / 2 + (ResultExtent(j) - 1);
      var st := State((x: int) => if x == y then 1 else 0, [], ZeroAcc(), false);
      LastRowCleared(pf, j, st);
    }
  }

  lemma OutsideBlocks(pf: Platform, j: Job, st: State, y: int)
    requires DecoupledBuffers(pf, j) && j.p % 8 == 0 && st.acc == ZeroAcc()
    requires !(pf.DevAddr(j.dstC) / 2 <= y < pf.DevAddr(j.dstC) / 2 + ResultExtent(j))
    ensures Exec(pf, DecoupledChain(pf, j, OPCODE_MAT_MUL_DECOUPLED_32x1), st).dram(y) == st.dram(y)
  {
    hide Exec, DecoupledChain, DecoupledBuffers, BankGroups, RowTiles, NumTileBlocks, TileCell;
    ChainRun(pf, j, st);
  }

  /**
   The last element written belongs to the last row of the last tile; in a partial tile that is no row of the
   matrix.
   */
  lemma LastRowCleared(pf: Platform, j: Job, st: State)
    requires DecoupledBuffers(pf, j) && j.p % 8 == 0 && st.acc == ZeroAcc() && j.p % 32 != 0 && j.r > 0
    ensures ResultExtent(j) > 0
    ensures Exec(pf, DecoupledChain(pf, j, OPCODE_MAT_MUL_DECOUPLED_32x1), st).dram(
      pf.DevAddr(j.dstC) / 2 + (ResultExtent(j) - 1)) == 0
  {
    hide *;
    var t, g := LastBlock(j);
    ChainRun(pf, j, st);
    CellRead(pf, j, st.dram, Exec(pf, DecoupledChain(pf, j, OPCODE_MAT_MUL_DECOUPLED_32x1), st).dram, t, g, 511);
    NoRow(pf, j, st.dram, t, TileNo(j, t, g));
  }

  lemma LastBlock(j: Job) returns (t: nat, g: nat)
    requires j.p % 32 != 0 && j.r > 0
    ensures t < RowTiles(j) && g < BankGroups(j) && 32 * t + 32 > j.p &&
      ResultExtent(j) == 512 * TileNo(j, t, g) + 511 + 1
  {
    TileStep(j, 0);
    TileStep(j, RowTiles(j));
    GroupStep(j, 0);
    hide RowTiles, BankGroups;
    t, g := RowTiles(j) - 1, BankGroups(j) - 1;
  }

  lemma NoRow(pf: Platform, j: Job, m: Dram, t: nat, n: nat)
    requires j.p % 8 == 0 && t < RowTiles(j) && 32 * t + 32 > j.p
    ensures TileSum(m, pf, j, t, n, Steps(j), 511) == 0
  {
    TileRowsFacts(j, t);
    hide RowTiles, TileRows, Steps;
  }

  /** Whole tiles make up the blocks; otherwise the blocks are larger. */
  lemma BlocksArea(j: Job)
    requires j.p % 8 == 0
    ensures j.p % 32 == 0 || j.r == 0 ==> HostResultArea(j) == ResultExtent(j)
    ensures j.p % 32 != 0 && j.r > 0 ==> HostResultArea(j) < ResultExtent(j)
  {
    TileStep(j, RowTiles(j));
    GroupStep(j, 0);
    WholeTiles(j);
    hide RowTiles, BankGroups;
    var T, R := RowTiles(j), BankGroups(j);
    assert 512 * (T * R) == (32 * T) * (16 * R);
    if j.p < 32 * T && R > 0 {
      MulMono(j.p + 1, 32 * T, 16 * R);
      assert (j.p + 1) * (16 * R) == j.p * (16 * R) + 16 * R;
    }
  }

  lemma WholeTiles(j: Job)
    ensures j.p <= 32 * RowTiles(j) && (j.p == 32 * RowTiles(j) <==> j.p % 32 == 0)
    ensures j.r == 0 ==> BankGroups(j) == 0
  {
  }
}
