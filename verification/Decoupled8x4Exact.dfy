/**
 Sizes for which the host's 8x4 job is wrong, and so exactly when it is right. Again a pair of matrices with
 a single one each shows it: the weight cursor wraps too early, row 32 is read back from the first tile, or
 the second tile does not start with the first weight block.
 */
module Decoupled8x4Exact {
  import opened Arith
  import opened Machine
  import opened DescMem
  import opened Triples
  import opened Decoupled
  import opened DecoupledRuns
  import opened DecoupledResults
  import opened DecoupledHost
  import opened DecoupledEndToEnd
  import opened DecoupledFit
  import opened DecoupledExact
  import opened Decoupled8x4Fit
  import opened GemmEndToEnd

  // ----- the packed layout of a matrix with a single one

  /** Every position below h * q in a tile holds some row and column of it. */
  lemma Pos8x4Onto(h: nat, q: nat, w: nat) returns (row: nat, k: nat)
    requires h % 8 == 0 && h > 0 && q % 4 == 0 && w < h * q
    ensures row < h && k < q && Pos8x4(h, row, k) == w
    ensures row == RowInPanel(OPCODE_MAT_MUL_DECOUPLED_8x4, h, w) && k == ColInPanel(OPCODE_MAT_MUL_DECOUPLED_8x4, h, w)
  {
    var n, v := QuotRem(w, 4 * h);
    var Q := Quarters(q);
    QuarterCount(h, Q, w, n, v);
    RowColumnIs(h, w, n, v);
    hide *;
    row, k := InBurstOf(h, v, n);
  }

  lemma Quarters(q: nat) returns (Q: nat)
    requires q % 4 == 0
    ensures q == 4 * Q
  {
    Q := q / 4;
  }

  lemma QuarterCount(h: nat, Q: nat, w: nat, n: nat, v: nat)
    requires w == n * (4 * h) + v && w < h * (4 * Q)
    ensures n < Q
  {
    assert Q * (4 * h) == h * (4 * Q);
    if n >= Q {
      MulMono(Q, n, 4 * h);
    }
  }

  lemma RowColumnIs(h: nat, w: nat, n: nat, v: nat)
    requires h > 0 && n == w / (4 * h) && v == w % (4 * h)
    ensures RowInPanel(OPCODE_MAT_MUL_DECOUPLED_8x4, h, w) == 8 * (v / 32) + (v % 32) % 8
    ensures ColInPanel(OPCODE_MAT_MUL_DECOUPLED_8x4, h, w) == 4 * n + (v % 32) / 8
  {
  }

  lemma InBurstOf(h: nat, v: nat, n: nat) returns (row: nat, k: nat)
    requires h % 8 == 0 && v < 4 * h
    ensures row == 8 * (v / 32) + (v % 32) % 8 && k == 4 * n + (v % 32) / 8 && row < h && 4 * n <= k < 4 * n + 4
    ensures Pos8x4(h, row, k) == n * (4 * h) + v
  {
    row, k := 8 * (v / 32) + (v % 32) % 8, 4 * n + (v % 32) / 8;
    assert v / 32 < h / 8;
    assert row / 8 == v / 32 && row % 8 == (v % 32) % 8 && k / 4 == n && k % 4 == (v % 32) / 8;
  }

  /** Tile and place in the tile of a flat element of the packed layout. */
  lemma TileOf(j: Job, d: nat) returns (t: nat, w: nat)
    requires j.p % 8 == 0 && d < j.p * j.q
    ensures t == d / (32 * j.q) && w == d % (32 * j.q) && d == t * (32 * j.q) + w
    ensures t < RowTiles(j) && w < TileRows(j, 32 * t) * j.q && TileRows(j, 32 * t) > 0 && TileRows(j, 32 * t) % 8 == 0
  {
    SomeColumns(j.p, j.q, d);
    t, w := QuotRem(d, 32 * j.q);
    TileBelow(j.p, j.q, d, t, w);
    TileStep(j, t);
    TileRowsFacts(j, t);
    var h := TileRows(j, 32 * t);
    hide *;
    TileWidth(j.p, j.q, t, w, h);
  }

  lemma SomeColumns(p: nat, q: nat, d: nat)
    requires d < p * q
    ensures q > 0
  {
  }

  lemma TileBelow(p: nat, q: nat, d: nat, t: nat, w: nat)
    requires d < p * q && d == t * (32 * q) + w
    ensures 32 * t < p
  {
    assert t * (32 * q) == 32 * t * q;
    if 32 * t >= p {
      MulMono(p, 32 * t, q);
    }
  }

  lemma TileWidth(p: nat, q: nat, t: nat, w: nat, h: nat)
    requires t * (32 * q) + w < p * q && w < 32 * q && h == if 32 * t + 32 <= p then 32 else p - 32 * t
    ensures w < h * q
  {
    if h != 32 {
      assert (p - 32 * t) * q == p * q - t * (32 * q);
    }
  }

  /** In the packed layout of a matrix with a single one, every element but its place is zero. */
  lemma UnitPanel8x4(j: Job, i0: nat, k0: nat, d: nat)
    requires Sizes8x4(j) && i0 < j.p && k0 < j.q && d < j.p * j.q && d != PanelAddr(j, i0, k0)
    ensures PanelLayout(j, UnitA(j, j.p, i0, k0), j.p)[d] == 0
  {
    hide *;
    LayoutSizes8x4(j);
    Mode8x4(j);
    var t, w := TileOf(j, d);
    var row, k := PlaceOf(j, t, w);
    RowBelow(j, t, row);
    PanelAtIs(j, UnitA(j, j.p, i0, k0), j.p, d, t, w, row, k);
    UnitCellA(j, i0, k0, 32 * t + row, k);
  }

  /** Row and column of element w of tile t. */
  lemma PlaceOf(j: Job, t: nat, w: nat) returns (row: nat, k: nat)
    requires Sizes8x4(j) && t < RowTiles(j) && TileRows(j, 32 * t) > 0 && w < TileRows(j, 32 * t) * j.q
    ensures row < TileRows(j, 32 * t) && k < j.q && PanelAddr(j, 32 * t + row, k) == t * (32 * j.q) + w
    ensures row == RowInPanel(OPCODE_MAT_MUL_DECOUPLED_8x4, TileRows(j, 32 * t), w)
    ensures k == ColInPanel(OPCODE_MAT_MUL_DECOUPLED_8x4, TileRows(j, 32 * t), w)
  {
    hide *;
    LayoutSizes8x4(j);
    Mode8x4(j);
    TileRowsFacts(j, t);
    row, k := Pos8x4Onto(TileRows(j, 32 * t), j.q, w);
    PanelAddrBound(j, t, row, k);
    PosMode(j, TileRows(j, 32 * t), row, k);
  }

  lemma PosMode(j: Job, h: nat, row: nat, k: nat)
    requires JobMode(j) == OPCODE_MAT_MUL_DECOUPLED_8x4
    ensures PanelPos(JobMode(j), h, row, k) == Pos8x4(h, row, k)
  {
  }

  lemma PanelAtIs(j: Job, src: seq<int>, rows: nat, d: nat, t: nat, w: nat, row: nat, k: nat)
    requires j.q > 0 && d < j.p * j.q && t == d / (32 * j.q) && w == d % (32 * j.q) && t < RowTiles(j) &&
      TileRows(j, 32 * t) > 0
    requires JobMode(j) == OPCODE_MAT_MUL_DECOUPLED_8x4
    requires row == RowInPanel(OPCODE_MAT_MUL_DECOUPLED_8x4, TileRows(j, 32 * t), w)
    requires k == ColInPanel(OPCODE_MAT_MUL_DECOUPLED_8x4, TileRows(j, 32 * t), w)
    ensures PanelLayout(j, src, rows)[d] == if 32 * t + row < rows then At(src, (32 * t + row) * j.q + k) else 0
  {
    hide RowTiles, TileRows, RowInPanel, ColInPanel, JobMode;
  }

  lemma Mode8x4(j: Job)
    requires Sizes8x4(j)
    ensures JobMode(j) == OPCODE_MAT_MUL_DECOUPLED_8x4 && j.p % 8 == 0 && j.q % 4 == 0
  {
  }

  lemma UnitCellA(j: Job, i0: nat, k0: nat, i: nat, k: nat)
    requires i0 < j.p && k0 < j.q && i < j.p && k < j.q
    ensures At(UnitA(j, j.p, i0, k0), i * j.q + k) == if i == i0 && k == k0 then 1 else 0
  {
    FlatInside(j.p, j.q, i0, k0);
    FlatInside(j.p, j.q, i, k);
    UnitAt(Area(j.p, j.q), Flat(i0, k0, j.q), Flat(i, k, j.q));
    FlatSame(j.q, i, k, i0, k0);
    hide Unit;
  }

  // ----- a DRAM that holds two such matrices and nothing else

  /** The layouts do not overlap, nor what the cursors may read behind them. */
  ghost predicate LayoutsApart8x4(pf: Platform, j: Job) {
    Separate(pf.DevAddr(j.srcA) / 2, ReachA(j), pf.DevAddr(j.srcB) / 2, ReachB(j))
  }

  /** The elements of a layout, or those the chain reads from it if they are more. */
  function ReachA(j: Job): nat { Max(Area(j.p, j.q), PanelExtent(j)) }
  function ReachB(j: Job): nat { Max(Area(Padded(j).q, Padded(j).r), WeightExtent(j)) }

  function UnitDram(pf: Platform, j: Job, i0: nat, k0: nat, c0: nat): Dram
    requires i0 < j.p && k0 < j.q && c0 < j.r
  {
    HoldingTwo(pf.DevAddr(j.srcA) / 2, PanelLayout(j, UnitA(j, j.p, i0, k0), j.p),
               pf.DevAddr(j.srcB) / 2, WeightLayout(Padded(j), Widened(UnitB(j, k0, c0), j.q, j.r, Padded(j).r)))
  }

  lemma LayoutLengths(j: Job)
    ensures Area(j.p, j.q) == j.p * j.q && Area(Padded(j).q, Padded(j).r) == Padded(j).q * Padded(j).r
  {
    hide Padded;
  }

  lemma UnitInA(pf: Platform, j: Job, i0: nat, k0: nat, c0: nat, u: nat)
    requires Sizes8x4(j) && LayoutsApart8x4(pf, j) && i0 < j.p && k0 < j.q && c0 < j.r
    requires u < ReachA(j) && u != PanelAddr(j, i0, k0)
    ensures UnitDram(pf, j, i0, k0, c0)(pf.DevAddr(j.srcA) / 2 + u) == 0
  {
    hide Sizes8x4, PanelLayout, UnitA, UnitB, Widened, PanelAddr, Padded, ReachA, ReachB, WeightLayout;
    if u < j.p * j.q {
      UnitPanel8x4(j, i0, k0, u);
    }
    LayoutLengths(j);
    Reaches(j);
  }

  lemma UnitInB(pf: Platform, j: Job, i0: nat, k0: nat, c0: nat, v: nat)
    requires Sizes8x4(j) && LayoutsApart8x4(pf, j) && i0 < j.p && k0 < j.q && c0 < j.r
    requires v < ReachB(j) && v != WeightAddr(Padded(j), k0, c0)
    ensures UnitDram(pf, j, i0, k0, c0)(pf.DevAddr(j.srcB) / 2 + v) == 0
  {
    Mode8x4(j);
    hide Sizes8x4, PanelLayout, UnitA, Unit, Widened, WeightAddr, Padded, Area, Flat, ReachA, ReachB, WeightLayout;
    UnitWeight(j, k0, c0, v);
    LayoutLengths(j);
    Reaches(j);
  }

  lemma UnitLaidOut(pf: Platform, j: Job, i0: nat, k0: nat, c0: nat) returns (st: State)
    requires LayoutsApart8x4(pf, j) && i0 < j.p && k0 < j.q && c0 < j.r
    ensures st.dram == UnitDram(pf, j, i0, k0, c0)
    ensures LaidOut8x4(pf, j, UnitA(j, j.p, i0, k0), UnitB(j, k0, c0), st)
  {
    LayoutLengths(j);
    Reaches(j);
    hide Widened, Loaded, Area, Padded, Unit, Flat, ReachA, ReachB;
    var sa := PanelLayout(j, UnitA(j, j.p, i0, k0), j.p);
    var sb := WeightLayout(Padded(j), Widened(UnitB(j, k0, c0), j.q, j.r, Padded(j).r));
    HoldingBoth(pf.DevAddr(j.srcA) / 2, sa, pf.DevAddr(j.srcB) / 2, sb);
    st := State(UnitDram(pf, j, i0, k0, c0), [], ZeroAcc(), false);
  }

  // ----- one result element

  /** Column c of step k meets the place of only one of the two ones, or of none. */
  predicate Misses8x4(j: Job, i0: nat, k0: nat, c0: nat, t: nat, n: nat, x: nat, k: nat, c: nat) {
    || PanelOffset(j, t, k) + FirstRowPos(j, t, c) != PanelAddr(j, i0, k0)
    || WeightOffset(j, n, k) + (x + c) != WeightAddr(Padded(j), k0, c0)
  }

  ghost predicate AllMiss8x4(j: Job, i0: nat, k0: nat, c0: nat, t: nat, n: nat, x: nat) {
    forall k: nat, c: nat {:trigger Misses8x4(j, i0, k0, c0, t, n, x, k, c)} ::
      k < Steps(j) && c < 32 ==> Misses8x4(j, i0, k0, c0, t, n, x, k, c)
  }

  lemma ReadsInside(j: Job, t: nat, g: nat, x: nat, k: nat, c: nat)
    requires Sizes8x4(j) && t < RowTiles(j) && g < BankGroups(j) && x < 512 && x % 32 == 0 && k < Steps(j) && c < 32
    ensures PanelOffset(j, t, k) + FirstRowPos(j, t, c) < ReachA(j)
    ensures WeightOffset(j, TileNo(j, t, g), k) + (x + c) < ReachB(j)
  {
    hide *;
    PosInPanel(j, t, c);
    PanelReadInside(j, t, k);
    WeightReadInside(j, t, g, k);
    Reaches(j);
    InBlock(x, c);
  }

  lemma Reaches(j: Job)
    ensures PanelExtent(j) <= ReachA(j) && WeightExtent(j) <= ReachB(j)
    ensures Area(j.p, j.q) <= ReachA(j) && Area(Padded(j).q, Padded(j).r) <= ReachB(j)
  {
    hide PanelExtent, WeightExtent, Area, Padded;
  }

  lemma InBlock(x: nat, c: nat)
    requires x < 512 && x % 32 == 0 && c < 32
    ensures x + c < 512
  {
  }

  lemma PosInPanel(j: Job, t: nat, c: nat)
    requires Sizes8x4(j) && t < RowTiles(j) && c < 32
    ensures FirstRowPos(j, t, c) < 32 * TileRows(j, 32 * t)
  {
    LayoutSizes8x4(j);
    TileRowsFacts(j, t);
    hide RowTiles, TileRows, JobMode, Sizes8x4;
    PanelInside(JobMode(j), TileRows(j, 32 * t), 0, c);
  }

  lemma MissedTerm8x4(pf: Platform, j: Job, i0: nat, k0: nat, c0: nat, t: nat, g: nat, x: nat, k: nat, c: nat)
    requires Sizes8x4(j) && LayoutsApart8x4(pf, j) && i0 < j.p && k0 < j.q && c0 < j.r
    requires t < RowTiles(j) && g < BankGroups(j) && x < 512 && x % 32 == 0 && k < Steps(j) && c < 32
    requires Misses8x4(j, i0, k0, c0, t, TileNo(j, t, g), x, k, c)
    ensures NoTerm(UnitDram(pf, j, i0, k0, c0), pf, j, t, TileNo(j, t, g), x, k, c)
  {
    hide Sizes8x4, LayoutsApart8x4, UnitDram, RowTiles, BankGroups, Steps, TileNo, PanelOffset, WeightOffset,
         FirstRowPos,
         PanelAddr, WeightAddr, Padded, ReachA, ReachB;
    ReadsInside(j, t, g, x, k, c);
    MissedAt(pf, j, i0, k0, c0, PanelOffset(j, t, k) + FirstRowPos(j, t, c),
             WeightOffset(j, TileNo(j, t, g), k) + (x + c));
  }

  lemma MissedAt(pf: Platform, j: Job, i0: nat, k0: nat, c0: nat, u: nat, v: nat)
    requires Sizes8x4(j) && LayoutsApart8x4(pf, j) && i0 < j.p && k0 < j.q && c0 < j.r
    requires u < ReachA(j) && v < ReachB(j)
    requires u != PanelAddr(j, i0, k0) || v != WeightAddr(Padded(j), k0, c0)
    ensures UnitDram(pf, j, i0, k0, c0)(pf.DevAddr(j.srcA) / 2 + u) == 0
         || UnitDram(pf, j, i0, k0, c0)(pf.DevAddr(j.srcB) / 2 + v) == 0
  {
    hide *;
    if u != PanelAddr(j, i0, k0) {
      UnitInA(pf, j, i0, k0, c0, u);
    } else {
      UnitInB(pf, j, i0, k0, c0, v);
    }
  }

  /**
   The product of ones at (i0, k0) and (k0, c0) is looked for in accumulator x of block (t, g), where it never
   arrives.
   */
  ghost predicate Lost(j: Job, i0: nat, k0: nat, c0: nat, t: nat, g: nat, x: nat) {
    && i0 < j.p && k0 < j.q && c0 < j.r && t < RowTiles(j) && g < BankGroups(j) && x < 512 && x % 32 == 0
    && ResultAddr(j, i0, c0) == 512 * TileNo(j, t, g) + x
    && AllMiss8x4(j, i0, k0, c0, t, TileNo(j, t, g), x)
  }

  /** If the element is read back from an accumulator that no product reaches, the job is wrong. */
  lemma UnitWrong8x4(pf: Platform, j: Job, i0: nat, k0: nat, c0: nat, t: nat, g: nat, x: nat, st: State)
    requires Sizes8x4(j) && DecoupledBuffers(pf, j) && LayoutsApart8x4(pf, j) && Lost(j, i0, k0, c0, t, g, x)
    requires st.dram == UnitDram(pf, j, i0, k0, c0) && st.acc == ZeroAcc()
    ensures !JobRight(pf, j, j.p, UnitA(j, j.p, i0, k0), UnitB(j, k0, c0), st)
  {
    UnitSum8x4(pf, j, i0, k0, c0, t, g, x, st.dram);
    hide *;
    LayoutSizes8x4(j);
    ChainRun(pf, j, st);
    RightIs(pf, j, j.p, UnitA(j, j.p, i0, k0), UnitB(j, k0, c0), st);
    UnitMatrix(pf, j, j.p, i0, k0, c0, t, g, x, st.dram,
               Exec(pf, DecoupledChain(pf, j, OPCODE_MAT_MUL_DECOUPLED_32x1), st).dram);
  }

  lemma UnitSum8x4(pf: Platform, j: Job, i0: nat, k0: nat, c0: nat, t: nat, g: nat, x: nat, m: Dram)
    requires Sizes8x4(j) && LayoutsApart8x4(pf, j) && i0 < j.p && k0 < j.q && c0 < j.r &&
      m == UnitDram(pf, j, i0, k0, c0)
    requires t < RowTiles(j) && g < BankGroups(j) && x < 512 && x % 32 == 0
    requires AllMiss8x4(j, i0, k0, c0, t, TileNo(j, t, g), x)
    ensures TileSum(m, pf, j, t, TileNo(j, t, g), Steps(j), x) == 0
  {
    hide Sizes8x4, LayoutsApart8x4, UnitDram, RowTiles, BankGroups, Steps, TileNo, TileSum, Misses8x4, NoTerm;
    forall k: nat, c: nat | k < Steps(j) && c < 32 ensures NoTerm(m, pf, j, t, TileNo(j, t, g), x, k, c) {
      MissedTerm8x4(pf, j, i0, k0, c0, t, g, x, k, c);
    }
    ZeroSum(pf, j, m, t, TileNo(j, t, g), Steps(j), x);
  }

  // ----- the three ways not to fit

  /** Steps of 32 * h elements and columns of row 0 within a step: only column 0 of step K is at K * (32 * h). */
  lemma OnlyFirst(h: nat, k: nat, c: nat, K: nat)
    requires h % 8 == 0 && h > 0 && c < 32 && !(k == K && c == 0)
    ensures k * (32 * h) + Pos8x4(h, 0, c) != K * (32 * h)
  {
    Inside8x4(h, 0, c);
    if k < K {
      MulMono(k + 1, K, 32 * h);
      assert (k + 1) * (32 * h) == k * (32 * h) + 32 * h;
    } else if k > K {
      MulMono(K + 1, k, 32 * h);
      assert (K + 1) * (32 * h) == K * (32 * h) + 32 * h;
    } else {
      assert c / 4 >= 1 || c % 4 >= 1;
      if c / 4 >= 1 {
        MulMono(1, c / 4, 4 * h);
      }
    }
  }

  /** In tile t only column 0 of step K reads row 32 * t, column 32 * K of A. */
  lemma PanelMiss(j: Job, t: nat, K: nat, k: nat, c: nat)
    requires Sizes8x4(j) && t < RowTiles(j) && k < Steps(j) && c < 32 && !(k == K && c == 0)
    ensures PanelOffset(j, t, k) + FirstRowPos(j, t, c) != PanelAddr(j, 32 * t, 32 * K)
  {
    Mode8x4(j);
    RowCursor(j, t, k);
    TileRowsFacts(j, t);
    hide Sizes8x4, RowTiles, TileRows, JobMode, Steps, PanelOffset;
    OnlyFirst(TileRows(j, 32 * t), k, c, K);
    FirstRowAddr(j, t, K);
  }

  lemma FirstRowAddr(j: Job, t: nat, K: nat)
    requires JobMode(j) == OPCODE_MAT_MUL_DECOUPLED_8x4
    ensures PanelAddr(j, 32 * t, 32 * K) == 32 * t * j.q + K * (32 * TileRows(j, 32 * t))
  {
    hide TileRows, JobMode;
    assert (32 * t) / 32 == t && (32 * t) % 32 == 0;
    assert (32 * K) / 4 == 8 * K && (32 * K) % 4 == 0;
    var h := TileRows(j, 32 * t);
    assert (8 * K) * (4 * h) == K * (32 * h);
    assert t * (32 * j.q) == 32 * t * j.q;
  }

  /** The cursor wraps before the last weight block. */
  lemma WrapMisses8x4(j: Job)
    requires Sizes8x4(j) && j.q * j.r <= 512 * (BankGroups(j) * Steps(j) - 1)
    ensures BankGroups(j) > 0 && Steps(j) > 0
    ensures Lost(j, 0, 32 * (Steps(j) - 1), 16 * (BankGroups(j) - 1), 0, BankGroups(j) - 1, 0)
  {
    Mode8x4(j);
    LayoutSizes8x4(j);
    CountsPositive(j);
    WrappedWeight(j);
    LastWeightAddr(j);
    TileStep(j, 0);
    SomeRows(j);
    FirstResult(j, BankGroups(j) - 1);
    hide Sizes8x4, ResultAddr, TileNo, RowTiles, BankGroups, Steps, PanelOffset, WeightOffset, PanelAddr, WeightAddr,
         FirstRowPos, Padded;
    var k0: nat, c0: nat, n: nat := 32 * (Steps(j) - 1), 16 * (BankGroups(j) - 1), BankGroups(j) - 1;
    forall k: nat, c: nat | k < Steps(j) && c < 32 ensures Misses8x4(j, 0, k0, c0, 0, n, 0, k, c) {
      if !(k == Steps(j) - 1 && c == 0) {
        PanelMiss(j, 0, Steps(j) - 1, k, c);
      }
    }
  }

  lemma SomeRows(j: Job)
    requires Sizes8x4(j)
    ensures j.p > 0
  {
  }

  lemma OriginWeight(j: Job)
    ensures WeightAddr(j, 0, 0) == 0
  {
    hide Steps;
  }

  /** Columns that are no multiple of 16: row 32 is read back from the first tile, in a later bank. */
  lemma ShiftedMisses8x4(j: Job)
    requires Sizes8x4(j) && j.p > 32 && j.r % 16 != 0
    ensures BankGroups(j) > 0 && Lost(j, 32, 0, 0, 0, BankGroups(j) - 1, 32 * (j.r % 16))
  {
    CountsPositive(j);
    TileStep(j, 0);
    assert j.r / 16 == BankGroups(j) - 1;
    OriginWeight(Padded(j));
    hide Sizes8x4, RowTiles, BankGroups, Steps, PanelOffset, WeightOffset, PanelAddr, WeightAddr, FirstRowPos, Padded;
    var n: nat, x := BankGroups(j) - 1, 32 * (j.r % 16);
    forall k: nat, c: nat | k < Steps(j) && c < 32 ensures Misses8x4(j, 32, 0, 0, 0, n, x, k, c) {
    }
  }

  /** The size of B does not divide the weights of one tile. */
  lemma TileRemainder(q: nat, r: nat, R: nat, S: nat)
    requires q > 0 && r == 16 * R && 32 * (S - 1) < q < 32 * S && q % 4 == 0 && 512 * (R * S - 1) < q * r && R > 0 &&
      S > 0
    requires !(r == 16 && (q == 4 || q == 8 || q == 16))
    ensures q * r > 0 && (512 * (R * S)) % (q * r) != 0
  {
    if R * S == 1 {
      OneFactor(R, S);
      SingleRemainder(q);
    } else {
      MulMono(q + 1, 32 * S, r);
      assert (32 * S) * (16 * R) == 512 * (R * S);
      assert (q + 1) * r == q * r + r;
      TwiceTooBig(512 * (R * S), q * r);
    }
  }

  lemma OneFactor(R: nat, S: nat)
    requires R * S == 1
    ensures R == 1 && S == 1
  {
    if R >= 2 {
      MulMono(2, R, S);
    } else if S >= 2 {
      MulMono(2, S, R);
    }
  }

  lemma SingleRemainder(q: nat)
    requires 0 < q < 32 && q % 4 == 0 && q != 4 && q != 8 && q != 16
    ensures 512 % (q * 16) != 0
  {
    assert q == 12 || q == 20 || q == 24 || q == 28;
  }

  lemma TwiceTooBig(x: nat, n: nat)
    requires n < x < 2 * n
    ensures x % n != 0
  {
    assert x == 1 * n + (x - n);
    DivMod(1, x - n, n);
  }

  /** Several row tiles: the second one does not start with the first weight block. */
  lemma LateMisses8x4(j: Job)
    requires Sizes8x4(j) && j.p > 32 && j.r % 16 == 0 && j.q % 32 != 0 &&
      512 * (BankGroups(j) * Steps(j) - 1) < j.q * j.r
    requires !(j.r == 16 && (j.q == 4 || j.q == 8 || j.q == 16))
    ensures Lost(j, 32, 0, 0, 1, 0, 0)
  {
    LateRemainder(j);
    SecondTile(j);
    OriginWeight(Padded(j));
    hide Sizes8x4, RowTiles, BankGroups, Steps, PanelOffset, WeightOffset, PanelAddr, WeightAddr, FirstRowPos, Padded,
         TileNo,
         ResultAddr;
    forall k: nat, c: nat | k < Steps(j) && c < 32 ensures Misses8x4(j, 32, 0, 0, 1, TileNo(j, 1, 0), 0, k, c) {
      if !(k == 0 && c == 0) {
        PanelMiss(j, 1, 0, k, c);
      }
    }
  }

  lemma SecondTile(j: Job)
    requires Sizes8x4(j) && j.p > 32 && j.r % 16 == 0
    ensures 0 < BankGroups(j) && 1 < RowTiles(j) && ResultAddr(j, 32, 0) == 512 * TileNo(j, 1, 0)
    ensures j.q > 0 && j.r > 0
  {
    LayoutSizes8x4(j);
    CountsPositive(j);
    TileStep(j, 1);
    WholeGroups(j);
    hide Sizes8x4, RowTiles, BankGroups, Steps;
  }

  lemma LateRemainder(j: Job)
    requires Sizes8x4(j) && j.r % 16 == 0 && j.q % 32 != 0 && 512 * (BankGroups(j) * Steps(j) - 1) < j.q * j.r
    requires !(j.r == 16 && (j.q == 4 || j.q == 8 || j.q == 16))
    ensures WeightOffset(j, TileNo(j, 1, 0), 0) != 0
  {
    LayoutSizes8x4(j);
    Mode8x4(j);
    CountsPositive(j);
    WholeGroups(j);
    hide Sizes8x4, BankGroups, Steps, WeightOffset, TileNo;
    assert j.q != 32 * Steps(j);
    TileRemainder(j.q, j.r, BankGroups(j), Steps(j));
    SecondTileWeight(j);
  }

  lemma SecondTileWeight(j: Job)
    requires j.q * j.r > 0
    ensures WeightOffset(j, TileNo(j, 1, 0), 0) == (512 * (BankGroups(j) * Steps(j))) % (j.q * j.r)
  {
    hide BankGroups, Steps;
    assert TileNo(j, 1, 0) == BankGroups(j);
  }

  /** For sizes that do not fit: a single one in each matrix whose product is lost, and where it is looked for. */
  lemma Misfit8x4(j: Job) returns (i0: nat, k0: nat, c0: nat, t: nat, g: nat, x: nat)
    requires Sizes8x4(j) && !Fits8x4(j)
    ensures Lost(j, i0, k0, c0, t, g, x)
  {
    MisfitCases(j);
    CountsPositive(j);
    hide *;
    if j.q * j.r <= 512 * (BankGroups(j) * Steps(j) - 1) {
      WrapMisses8x4(j);
      i0, k0, c0, t, g, x := 0, 32 * (Steps(j) - 1), 16 * (BankGroups(j) - 1), 0, BankGroups(j) - 1, 0;
    } else if j.r % 16 != 0 {
      ShiftedMisses8x4(j);
      i0, k0, c0, t, g, x := 32, 0, 0, 0, BankGroups(j) - 1, 32 * (j.r % 16);
    } else {
      LateMisses8x4(j);
      i0, k0, c0, t, g, x := 32, 0, 0, 1, 0, 0;
    }
  }

  lemma MisfitCases(j: Job)
    requires Sizes8x4(j) && !Fits8x4(j)
    ensures j.p > 0 && j.q > 0 && j.r > 0 && !(j.r == 16 && (j.q == 4 || j.q == 8 || j.q == 16))
    ensures j.q * j.r <= 512 * (BankGroups(j) * Steps(j) - 1) || (j.p > 32 && (j.r % 16 != 0 || j.q % 32 != 0))
  {
    hide BankGroups, Steps;
  }

  lemma FirstResult(j: Job, g: nat)
    ensures TileNo(j, 0, g) == g && ResultAddr(j, 0, 16 * g) == 512 * g
  {
    hide BankGroups;
  }

  ghost predicate AlwaysRight8x4(pf: Platform, j: Job) {
    forall srcA: seq<int>, srcB: seq<int>, st: State {:trigger JobRight(pf, j, j.p, srcA, srcB, st)} ::
      LaidOut8x4(pf, j, srcA, srcB, st) ==> JobRight(pf, j, j.p, srcA, srcB, st)
  }

  /**
   The host's decoupled job in 8x4 mode is right for all matrices exactly when it fits: q a multiple of 32 and
   r of 16; or a single row tile whose last weight block is reached without wrapping; or 16 columns and an
   inner dimension of 4, 8 or 16.
   */
  lemma DecoupledHost8x4Exact(pf: Platform, j: Job)
    requires Sizes8x4(j) && DecoupledBuffers(pf, j) && LayoutsApart8x4(pf, j)
    ensures Fits8x4(j) <==> AlwaysRight8x4(pf, j)
  {
    hide Sizes8x4, Fits8x4, JobRight, LaidOut8x4, DecoupledBuffers, LayoutsApart8x4, Unit, AllMiss8x4, TileNo, RowTiles,
         BankGroups, ResultAddr, UnitDram;
    if Fits8x4(j) {
      forall srcA: seq<int>, srcB: seq<int>, st: State | LaidOut8x4(pf, j, srcA, srcB, st)
        ensures JobRight(pf, j, j.p, srcA, srcB, st)
      {
        FitRight8x4(pf, j, srcA, srcB, st);
      }
    } else {
      var i0, k0, c0, t, g, x := Misfit8x4(j);
      var st := UnitLaidOut(pf, j, i0, k0, c0);
      LaidOutIdle8x4(pf, j, UnitA(j, j.p, i0, k0), UnitB(j, k0, c0), st);
      UnitWrong8x4(pf, j, i0, k0, c0, t, g, x, st);
    }
  }
}
