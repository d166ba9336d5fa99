/**
 Sizes for which the host's decoupled job is wrong, and so exactly when it is right. Three things go wrong:
 a weight cursor wraps too early, row 32 is read back from the first tile, or the second tile is read too early.
 */
module DecoupledExact {
  import opened Arith
  import opened Sums
  import opened Machine
  import opened DescMem
  import opened Triples
  import opened Decoupled
  import opened DecoupledRuns
  import opened DecoupledResults
  import opened DecoupledHost
  import opened DecoupledEndToEnd
  import opened DecoupledFit
  import opened GemmHost
  import opened GemmEndToEnd

  // ----- sizes that do not fit

  /** In the layout of a matrix with a single one, at (i0, k0), every element but its place is zero. */
  lemma UnitPanel(j: Job, rows: nat, i0: nat, k0: nat, d: nat)
    requires HostSizes(j, rows) && i0 < rows && k0 < j.q
    ensures var s := PanelLayout(Padded(j), Widened(Unit(Area(rows, j.q), Flat(i0, k0, j.q)), rows, j.q, Padded(j).q),
      rows);
      d < |s| && d != PanelAddr(Padded(j), i0, k0) ==> s[d] == 0
  {
    hide *;
    SizesFacts(j, rows);
    PaddedBounds(j);
    PaddedSizes(j);
    FlatInside(rows, j.q, i0, k0);
    var src := Widened(Unit(Area(rows, j.q), Flat(i0, k0, j.q)), rows, j.q, Padded(j).q);
    if d < |PanelLayout(Padded(j), src, rows)| {
      PanelLayoutIs(Padded(j), src, rows, d);
      UnitPanelAt(Padded(j), j.q, rows, i0, k0, d);
    }
  }

  lemma PaddedSizes(j: Job)
    requires j.p % 8 == 0
    ensures TileSizes(Padded(j)) && Padded(j).p == j.p
  {
    PaddedFacts(j);
  }

  lemma PanelLayoutIs(j: Job, src: seq<int>, rows: nat, d: nat)
    requires d < |PanelLayout(j, src, rows)|
    ensures d < j.p * j.q && PanelLayout(j, src, rows)[d] == PanelAt(j, src, rows, d)
  {
    hide PanelAt;
  }

  lemma UnitPanelAt(jp: Job, q: nat, rows: nat, i0: nat, k0: nat, d: nat)
    requires TileSizes(jp) && jp.p % 32 == 0 && q <= jp.q && i0 < rows <= jp.p && k0 < q && d < jp.p * jp.q
    requires 0 <= Flat(i0, k0, q)
    ensures d != PanelAddr(jp, i0, k0) ==>
      PanelAt(jp, Widened(Unit(Area(rows, q), Flat(i0, k0, q)), rows, q, jp.q), rows, d) == 0
  {
    hide Widened, Unit, TileSizes, PanelAddr, PanelAt;
    var src := Widened(Unit(Area(rows, q), Flat(i0, k0, q)), rows, q, jp.q);
    var t, k, ii := PanelPlace32(jp, d);
    PanelAt32(jp, src, rows, t, k, ii, d);
    PanelAddr32(jp, i0, k0);
    if 32 * t + ii < rows {
      UnitWide(rows, q, jp.q, i0, k0, 32 * t + ii, k);
    }
  }

  /** Tile, column and row of a flat element of the 32x1 layout. */
  lemma PanelPlace32(jp: Job, d: nat) returns (t: nat, k: nat, ii: nat)
    requires TileSizes(jp) && jp.p % 32 == 0 && d < jp.p * jp.q
    ensures 32 * t < jp.p && k < jp.q && ii < 32 && d == t * (32 * jp.q) + k * 32 + ii
  {
    hide TileSizes;
    var T := jp.p / 32;
    assert jp.p * jp.q == T * (32 * jp.q);
    var w;
    t, w := RowAndCol(d, T, 32 * jp.q);
    k, ii := w / 32, w % 32;
  }

  lemma PanelAt32(jp: Job, src: seq<int>, rows: nat, t: nat, k: nat, ii: nat, d: nat)
    requires TileSizes(jp) && jp.p % 32 == 0 && 32 * t < jp.p && k < jp.q && ii < 32 &&
      d == t * (32 * jp.q) + k * 32 + ii
    ensures PanelAt(jp, src, rows, d) == if 32 * t + ii < rows then At(src, Flat(32 * t + ii, k, jp.q)) else 0
  {
    TileStep(jp, t);
    TileRowsFacts(jp, t);
    assert JobMode(jp) == OPCODE_MAT_MUL_DECOUPLED_32x1;
    hide TileSizes, RowTiles, TileRows, JobMode;
    PositionSplit(jp.q, t, k, ii, d);
  }

  lemma PositionSplit(q: nat, t: nat, k: nat, ii: nat, d: nat)
    requires k < q && ii < 32 && d == t * (32 * q) + k * 32 + ii
    ensures d / (32 * q) == t && d % (32 * q) == k * 32 + ii && (k * 32 + ii) / 32 == k && (k * 32 + ii) % 32 == ii
  {
    DivMod(t, k * 32 + ii, 32 * q);
  }

  lemma PanelAddr32(jp: Job, i: nat, k: nat)
    requires TileSizes(jp) && jp.p % 32 == 0 && i < jp.p
    ensures PanelAddr(jp, i, k) == (i / 32) * (32 * jp.q) + k * 32 + i % 32
  {
    TileOfRow(jp, i);
    TileRowsFacts(jp, i / 32);
  }

  lemma UnitWide(rows: nat, q: nat, wide: nat, i0: nat, k0: nat, i: nat, k: nat)
    requires i0 < rows && k0 < q <= wide && i < rows && k < wide
    ensures At(Widened(Unit(Area(rows, q), Flat(i0, k0, q)), rows, q, wide), Flat(i, k, wide)) ==
      if i == i0 && k == k0 then 1 else 0
  {
    var src := Unit(Area(rows, q), Flat(i0, k0, q));
    hide Widened, Unit, Area, Flat;
    WidenedAt(src, rows, q, wide, i, k);
    if k < q {
      FlatInside(rows, q, i, k);
      UnitAt(Area(rows, q), Flat(i0, k0, q), Flat(i, k, q));
      FlatSame(q, i, k, i0, k0);
    }
  }

  lemma UnitAt(n: nat, t: int, d: nat)
    requires t >= 0 && d < n
    ensures Unit(n, t)[d] == if d == t then 1 else 0
  {
  }

  lemma FlatInside(rows: nat, q: nat, i: nat, k: nat)
    requires i < rows && k < q
    ensures 0 <= Flat(i, k, q) < Area(rows, q)
  {
    RowMajorBound(i, rows, k, q);
  }

  lemma FlatSame(q: nat, i: nat, k: nat, i0: nat, k0: nat)
    requires k < q && k0 < q
    ensures Flat(i, k, q) >= 0 && (Flat(i, k, q) == Flat(i0, k0, q) <==> i == i0 && k == k0)
  {
    DivMod(i, k, q);
    DivMod(i0, k0, q);
  }

  /** In the weight layout of a matrix with a single one, at (k0, c0), every element but its place is zero. */
  lemma UnitWeight(j: Job, k0: nat, c0: nat, d: nat)
    requires j.p % 8 == 0 && k0 < j.q && c0 < j.r
    ensures var s := WeightLayout(Padded(j), Widened(Unit(Area(j.q, j.r), Flat(k0, c0, j.r)), j.q, j.r, Padded(j).r));
      d < |s| && d != WeightAddr(Padded(j), k0, c0) ==> s[d] == 0
  {
    PaddedFacts(j);
    var jp := Padded(j);
    if d < jp.q * jp.r {
      hide Padded, Widened, Unit, TileSizes, WeightAddr, WeightAt, Flat, Area;
      FlatInside(j.q, j.r, k0, c0);
      UnitWeightAt(jp, j.q, j.r, k0, c0, d);
    }
  }

  lemma UnitWeightAt(jp: Job, q: nat, r: nat, k0: nat, c0: nat, d: nat)
    requires TileSizes(jp) && q <= jp.q && r <= jp.r && k0 < q && c0 < r && d < jp.q * jp.r
    requires 0 <= Flat(k0, c0, r)
    ensures d != WeightAddr(jp, k0, c0) ==> WeightAt(jp, Widened(Unit(Area(q, r), Flat(k0, c0, r)), q, r, jp.r), d) == 0
  {
    hide Widened, Unit, TileSizes, WeightAddr, WeightAt, Area, Flat;
    var src := Widened(Unit(Area(q, r), Flat(k0, c0, r)), q, r, jp.r);
    var g, kk, x := WeightPlaceOf(jp, d);
    WeightValueAt(jp, src, g, kk, x / 32, x % 32);
    WeightAddrOf(jp, g, kk, x / 32, x % 32);
    BlockIs(jp, g, kk, x);
    BankColumn(jp, g, x / 32);
    if 32 * kk + x % 32 < q {
      UnitWide(q, r, jp.r, k0, c0, 32 * kk + x % 32, 16 * g + x / 32);
    } else {
      FlatInside(q, r, k0, c0);
      WidenedAt(Unit(Area(q, r), Flat(k0, c0, r)), q, r, jp.r, 32 * kk + x % 32, 16 * g + x / 32);
    }
  }

  lemma BlockIs(jp: Job, g: nat, kk: nat, x: nat)
    requires x < 512
    ensures WeightBlock(jp, g, kk) + 32 * (x / 32) + x % 32 == 512 * (g * Steps(jp) + kk) + x
    ensures x / 32 < 16 && x % 32 < 32 && 512 * (g * Steps(jp) + kk) + ((x / 32) * 32 + x % 32) ==
      512 * (g * Steps(jp) + kk) + x
  {
    hide Steps;
  }

  /** Group, step and place in its block of a flat element of the weight layout. */
  lemma WeightPlaceOf(jp: Job, d: nat) returns (g: nat, kk: nat, x: nat)
    requires TileSizes(jp) && d < jp.q * jp.r
    ensures g < BankGroups(jp) && kk < Steps(jp) && x < 512 && d == 512 * (g * Steps(jp) + kk) + x
  {
    WeightCount(jp);
    hide TileSizes, BankGroups, Steps;
    x := d % 512;
    g, kk := RowAndCol(d / 512, BankGroups(jp), Steps(jp));
  }

  // ----- one result element

  /** Some factor of the product that column c of step k contributes to row 0 of a tile is zero. */
  ghost predicate NoTerm(m: Dram, pf: Platform, j: Job, t: nat, n: nat, x: nat, k: nat, c: nat) {
    || m(pf.DevAddr(j.srcA) / 2 + (PanelOffset(j, t, k) + FirstRowPos(j, t, c))) == 0
    || m(pf.DevAddr(j.srcB) / 2 + (WeightOffset(j, n, k) + (x + c))) == 0
  }

  /** Where column c of row 0 lies in a panel of tile t. */
  function FirstRowPos(j: Job, t: nat, c: nat): nat { PanelPos(JobMode(j), TileRows(j, 32 * t), 0, c) }

  lemma {:induction false} ZeroSum(pf: Platform, j: Job, m: Dram, t: nat, n: nat, K: nat, x: nat)
    requires x < 512 && x % 32 == 0
    requires forall k: nat, c: nat {:trigger NoTerm(m, pf, j, t, n, x, k, c)} ::
      k < K && c < 32 ==> NoTerm(m, pf, j, t, n, x, k, c)
    ensures TileSum(m, pf, j, t, n, K, x) == 0
  {
    hide TileRows, NoTerm, Sum, DecoupledTerm, PanelRead, WeightRead, JobMode;
    if K == 0 {
    } else {
      ZeroSum(pf, j, m, t, n, K - 1, x);
      ZeroTerms(pf, j, m, t, n, K - 1, x);
    }
  }

  lemma ZeroTerms(pf: Platform, j: Job, m: Dram, t: nat, n: nat, k: nat, x: nat)
    requires x < 512 && x % 32 == 0
    requires forall c: nat {:trigger NoTerm(m, pf, j, t, n, x, k, c)} :: c < 32 ==> NoTerm(m, pf, j, t, n, x, k, c)
    ensures Sum(DecoupledTerm(JobMode(j), WeightRead(m, pf, j, n, k), PanelRead(m, pf, j, t, k), TileRows(j, 32 * t),
      x), 32) == 0
  {
    hide TileRows, JobMode, PanelOffset, WeightOffset, Sum, NoTerm;
    var f := DecoupledTerm(JobMode(j), WeightRead(m, pf, j, n, k), PanelRead(m, pf, j, t, k), TileRows(j, 32 * t), x);
    forall c | 0 <= c < 32 ensures f(c) == 0 {
      ZeroTerm(pf, j, m, t, n, k, x, c);
    }
    SumZero(f, 32);
  }

  lemma ZeroTerm(pf: Platform, j: Job, m: Dram, t: nat, n: nat, k: nat, x: nat, c: nat)
    requires x < 512 && x % 32 == 0 && c < 32
    requires NoTerm(m, pf, j, t, n, x, k, c)
    ensures DecoupledTerm(JobMode(j), WeightRead(m, pf, j, n, k), PanelRead(m, pf, j, t, k), TileRows(j, 32 * t),
      x)(c) == 0
  {
    hide TileRows, JobMode, PanelOffset, WeightOffset, PanelPos;
    assert (x / 32) * 32 == x;
    var s, v, pos := PanelRead(m, pf, j, t, k), WeightRead(m, pf, j, n, k), FirstRowPos(j, t, c);
    assert pos < |s| ==> At(s, pos) == m(pf.DevAddr(j.srcA) / 2 + (PanelOffset(j, t, k) + pos));
    assert At(v, x + c) == m(pf.DevAddr(j.srcB) / 2 + (WeightOffset(j, n, k) + (x + c)));
  }

  /** Panel column c or weight c of step k lies in its buffer, but not where the single one is. */
  predicate Misses(j: Job, i0: nat, k0: nat, c0: nat, t: nat, n: nat, x: nat, k: nat, c: nat) {
    || (PanelOffset(j, t, k) + 32 * c < j.p * Padded(j).q &&
       PanelOffset(j, t, k) + 32 * c != PanelAddr(Padded(j), i0, k0))
    || (WeightOffset(j, n, k) + (x + c) < Padded(j).q * Padded(j).r &&
       WeightOffset(j, n, k) + (x + c) != WeightAddr(Padded(j), k0, c0))
  }

  function UnitA(j: Job, rows: nat, i0: nat, k0: nat): seq<int>
    requires i0 < rows && k0 < j.q
  {
    FlatInside(rows, j.q, i0, k0); Unit(Area(rows, j.q), Flat(i0, k0, j.q))
  }

  function UnitB(j: Job, k0: nat, c0: nat): seq<int>
    requires k0 < j.q && c0 < j.r
  {
    FlatInside(j.q, j.r, k0, c0); Unit(Area(j.q, j.r), Flat(k0, c0, j.r))
  }

  lemma MissedTerm(pf: Platform, j: Job, rows: nat, i0: nat, k0: nat, c0: nat, st: State, t: nat, n: nat, x: nat,
                   k: nat, c: nat)
    requires HostSizes(j, rows) && i0 < rows && k0 < j.q && c0 < j.r && t < RowTiles(j)
    requires LaidOut(pf, j, rows, UnitA(j, rows, i0, k0), UnitB(j, k0, c0), st)
    requires Misses(j, i0, k0, c0, t, n, x, k, c)
    ensures NoTerm(st.dram, pf, j, t, n, x, k, c)
  {
    SizesFacts(j, rows);
    FullPos(j, rows, t, c);
    var a, b := PanelOffset(j, t, k) + 32 * c, WeightOffset(j, n, k) + (x + c);
    var sa := PanelLayout(Padded(j), Widened(UnitA(j, rows, i0, k0), rows, j.q, Padded(j).q), rows);
    var sb := WeightLayout(Padded(j), Widened(UnitB(j, k0, c0), j.q, j.r, Padded(j).r));
    UnitPanel(j, rows, i0, k0, a);
    UnitWeight(j, k0, c0, b);
    hide HostSizes, PanelLayout, WeightLayout, Widened, Unit, PanelOffset, WeightOffset, PanelAddr, WeightAddr, Area,
         Flat,
         FirstRowPos;
    if a < |sa| && a != PanelAddr(Padded(j), i0, k0) {
      assert sa[a] == 0;
    } else {
      assert sb[b] == 0;
    }
  }

  lemma FullPos(j: Job, rows: nat, t: nat, c: nat)
    requires HostSizes(j, rows) && t < RowTiles(j)
    ensures FirstRowPos(j, t, c) == 32 * c
  {
    FullRows(j, rows, t);
    assert JobMode(j) == OPCODE_MAT_MUL_DECOUPLED_32x1;
    hide TileRows, RowTiles;
  }

  lemma UnitRows(rows: nat, q: nat, i0: nat, k0: nat, i: nat, k: nat)
    requires i0 < rows && k0 < q && i < rows && k < q && 0 <= Flat(i0, k0, q)
    ensures Rows(Unit(Area(rows, q), Flat(i0, k0, q)), q)(i, k) == if i == i0 && k == k0 then 1 else 0
  {
    hide Unit, Area;
    FlatInside(rows, q, i, k);
    UnitAt(Area(rows, q), Flat(i0, k0, q), Flat(i, k, q));
    FlatSame(q, i, k, i0, k0);
    RowsAt(Unit(Area(rows, q), Flat(i0, k0, q)), q, i, k);
  }

  lemma RowsAt(s: seq<int>, cols: nat, i: nat, k: nat)
    ensures Rows(s, cols)(i, k) == At(s, Flat(i, k, cols))
  {
  }

  /** The reference computes a one at (i0, c0). */
  lemma UnitCpu(j: Job, rows: nat, i0: nat, k0: nat, c0: nat)
    requires i0 < rows && k0 < j.q && c0 < j.r
    ensures CpuAt(UnitA(j, rows, i0, k0), UnitB(j, k0, c0), Zeros(rows * j.r), j.q, j.r, i0, c0) == 1
  {
    hide Unit, Zeros, Area, Rows, Flat;
    var A, B := Rows(UnitA(j, rows, i0, k0), j.q), Rows(UnitB(j, k0, c0), j.r);
    FlatInside(rows, j.q, i0, k0);
    FlatInside(j.q, j.r, k0, c0);
    UnitRows(j.q, j.r, k0, c0, k0, c0);
    forall k: nat {:trigger Product(A, B, i0, c0, k)} | k < j.q
      ensures Product(A, B, i0, c0, k) == if k == k0 then 1 else 0
    {
      UnitRows(rows, j.q, i0, k0, i0, k);
    }
    DotOneTerm(A, B, i0, c0, k0, j.q);
    ZeroAt(rows * j.r, i0 * j.r + c0);
  }

  /** No product reaches accumulator x of block (t, g). */
  ghost predicate AllMiss(j: Job, i0: nat, k0: nat, c0: nat, t: nat, n: nat, x: nat) {
    forall k: nat, c: nat {:trigger Misses(j, i0, k0, c0, t, n, x, k, c)} ::
      k < Steps(j) && c < 32 ==> Misses(j, i0, k0, c0, t, n, x, k, c)
  }

  lemma UnitSum(pf: Platform, j: Job, rows: nat, i0: nat, k0: nat, c0: nat, t: nat, n: nat, x: nat, st: State)
    requires HostSizes(j, rows) && i0 < rows && k0 < j.q && c0 < j.r && t < RowTiles(j) && x < 512 && x % 32 == 0
    requires LaidOut(pf, j, rows, UnitA(j, rows, i0, k0), UnitB(j, k0, c0), st)
    requires AllMiss(j, i0, k0, c0, t, n, x)
    ensures TileSum(st.dram, pf, j, t, n, Steps(j), x) == 0
  {
    hide HostSizes, LaidOut, UnitA, UnitB, TileRows, RowTiles, TileSum, Misses, NoTerm, Steps;
    forall k: nat, c: nat | k < Steps(j) && c < 32 ensures NoTerm(st.dram, pf, j, t, n, x, k, c) {
      MissedTerm(pf, j, rows, i0, k0, c0, st, t, n, x, k, c);
    }
    ZeroSum(pf, j, st.dram, t, n, Steps(j), x);
  }

  /** If the element is read back from an accumulator that no product reaches, the job is wrong. */
  lemma UnitWrong(pf: Platform, j: Job, rows: nat, i0: nat, k0: nat, c0: nat, t: nat, g: nat, x: nat, st: State)
    requires HostSizes(j, rows) && DecoupledBuffers(pf, j) && i0 < rows && k0 < j.q && c0 < j.r
    requires LaidOut(pf, j, rows, UnitA(j, rows, i0, k0), UnitB(j, k0, c0), st)
    requires t < RowTiles(j) && g < BankGroups(j) && x < 512 && x % 32 == 0
    requires ResultAddr(j, i0, c0) == 512 * TileNo(j, t, g) + x
    requires AllMiss(j, i0, k0, c0, t, TileNo(j, t, g), x)
    ensures !JobRight(pf, j, rows, UnitA(j, rows, i0, k0), UnitB(j, k0, c0), st)
  {
    hide *;
    SizesFacts(j, rows);
    LaidOutIdle(pf, j, rows, UnitA(j, rows, i0, k0), UnitB(j, k0, c0), st);
    UnitSum(pf, j, rows, i0, k0, c0, t, TileNo(j, t, g), x, st);
    ChainRun(pf, j, st);
    RightIs(pf, j, rows, UnitA(j, rows, i0, k0), UnitB(j, k0, c0), st);
    UnitMatrix(pf, j, rows, i0, k0, c0, t, g, x, st.dram,
               Exec(pf, DecoupledChain(pf, j, OPCODE_MAT_MUL_DECOUPLED_32x1), st).dram);
  }

  lemma UnitMatrix(pf: Platform, j: Job, rows: nat, i0: nat, k0: nat, c0: nat, t: nat, g: nat, x: nat, m: Dram,
                   m': Dram)
    requires i0 < rows && k0 < j.q && c0 < j.r && t < RowTiles(j) && g < BankGroups(j) && x < 512
    requires ResultAddr(j, i0, c0) == 512 * TileNo(j, t, g) + x
    requires TilesResult(pf, j, NumTileBlocks(j), m, m') && TileSum(m, pf, j, t, TileNo(j, t, g), Steps(j), x) == 0
    ensures !DecoupledRight(pf, j, rows, UnitA(j, rows, i0, k0), UnitB(j, k0, c0), m')
  {
    hide *;
    CellRead(pf, j, m, m', t, g, x);
    UnitCpu(j, rows, i0, k0, c0);
    if DecoupledRight(pf, j, rows, UnitA(j, rows, i0, k0), UnitB(j, k0, c0), m') {
      RightElement(pf, j, rows, UnitA(j, rows, i0, k0), UnitB(j, k0, c0), m', i0, c0);
    }
  }

  lemma FullRows(j: Job, rows: nat, t: nat)
    requires HostSizes(j, rows) && t < RowTiles(j)
    ensures j.p % 32 == 0 && TileRows(j, 32 * t) == 32
  {
    TileRowsFacts(j, t);
  }

  lemma RightElement(pf: Platform, j: Job, rows: nat, srcA: seq<int>, srcB: seq<int>, m: Dram, i: nat, c: nat)
    requires DecoupledRight(pf, j, rows, srcA, srcB, m) && i < rows && c < j.r
    ensures m(pf.DevAddr(j.dstC) / 2 + ResultAddr(j, i, c)) == CpuAt(srcA, srcB, Zeros(rows * j.r), j.q, j.r, i, c)
  {
    hide DecoupledReadBack, CpuResult, CpuAt, ResultAddr, Zeros;
    ReadBackCell(pf, j, rows, m, i, c);
    CpuCell(srcA, srcB, Zeros(rows * j.r), rows, j.q, j.r, i, c);
  }

  // ----- the three ways not to fit

  /** One row tile, and the cursor wraps before the last weight block: the last product is lost. */
  lemma WrapMisses(j: Job)
    requires j.p == 32 && j.q > 0 && j.r > 0 && TileRows(j, 0) == 32 &&
      j.q * j.r <= 512 * (BankGroups(j) * Steps(j) - 1)
    ensures BankGroups(j) > 0 && Steps(j) > 0
    ensures AllMiss(j, 0, 32 * (Steps(j) - 1), 16 * (BankGroups(j) - 1), 0, BankGroups(j) - 1, 0)
  {
    CountsPositive(j);
    var k0: nat, c0: nat, n: nat := 32 * (Steps(j) - 1), 16 * (BankGroups(j) - 1), BankGroups(j) - 1;
    forall k: nat, c: nat | k < Steps(j) && c < 32 ensures Misses(j, 0, k0, c0, 0, n, 0, k, c) {
      WrapMiss(j, k, c);
    }
  }

  lemma CountsPositive(j: Job)
    requires j.q > 0 && j.r > 0
    ensures BankGroups(j) > 0 && Steps(j) > 0
    ensures 32 * (Steps(j) - 1) < j.q <= 32 * Steps(j) && 16 * (BankGroups(j) - 1) < j.r <= 16 * BankGroups(j)
  {
    StepStep(j, Steps(j) - 1);
    StepStep(j, Steps(j));
    GroupStep(j, BankGroups(j) - 1);
    GroupStep(j, BankGroups(j));
  }

  lemma WrapMiss(j: Job, k: nat, c: nat)
    requires j.p == 32 && j.q > 0 && j.r > 0 && TileRows(j, 0) == 32 &&
      j.q * j.r <= 512 * (BankGroups(j) * Steps(j) - 1)
    requires BankGroups(j) > 0 && Steps(j) > 0 && k < Steps(j) && c < 32
    ensures Misses(j, 0, 32 * (Steps(j) - 1), 16 * (BankGroups(j) - 1), 0, BankGroups(j) - 1, 0, k, c)
  {
    SmallTile(j);
    PaddedFacts(j);
    CountsPositive(j);
    SmallTile(Padded(j));
    var R, Q := BankGroups(j), Steps(j);
    FirstPanel(j, k);
    PanelAddr32(Padded(j), 0, 32 * (Q - 1));
    LastWeightAddr(j);
    hide TileRows, Steps, BankGroups, PanelOffset, PanelAddr, WeightAddr, TileSizes;
    if k == Q - 1 && c == 0 {
      WrappedWeight(j);
      ProductGrows(j.q, j.r, Padded(j).q, Padded(j).r);
    }
  }

  lemma SmallTile(j: Job)
    requires j.p == 32
    ensures j.p % 32 == 0 && j.p % 8 == 0
  {
  }

  lemma WrappedWeight(j: Job)
    requires j.q > 0 && j.r > 0 && BankGroups(j) > 0 && Steps(j) > 0
    ensures WeightOffset(j, BankGroups(j) - 1, Steps(j) - 1) < j.q * j.r
  {
    hide BankGroups, Steps;
    MulMono(1, j.q, j.r);
    ModBelow(512 * ((BankGroups(j) - 1) * Steps(j) + (Steps(j) - 1)), j.q * j.r);
  }

  lemma LastWeightAddr(j: Job)
    requires BankGroups(j) > 0 && Steps(j) > 0 && j.p % 8 == 0
    ensures WeightAddr(Padded(j), 32 * (Steps(j) - 1), 16 * (BankGroups(j) - 1)) == 512 * (BankGroups(j) * Steps(j) - 1)
  {
    SameCounts(j);
    hide BankGroups, Steps, Padded;
    WeightAddrOf(Padded(j), BankGroups(j) - 1, Steps(j) - 1, 0, 0);
    assert (BankGroups(j) - 1) * Steps(j) + (Steps(j) - 1) == BankGroups(j) * Steps(j) - 1;
  }

  /** Several row tiles and columns that are no multiple of 16: row 32 is read back from the first tile. */
  lemma ShiftedRows(j: Job)
    requires j.p >= 64 && j.p % 32 == 0 && j.q > 0 && j.r > 0 && j.r % 16 != 0 && TileRows(j, 0) == 32
    ensures BankGroups(j) > 0 && 0 < RowTiles(j) &&
      ResultAddr(j, 32, 0) == 512 * TileNo(j, 0, BankGroups(j) - 1) + 32 * (j.r % 16)
    ensures AllMiss(j, 32, 0, 0, 0, BankGroups(j) - 1, 32 * (j.r % 16))
  {
    CountsPositive(j);
    TileStep(j, 0);
    assert j.r / 16 == BankGroups(j) - 1;
    var n, x := BankGroups(j) - 1, 32 * (j.r % 16);
    hide BankGroups, Steps, TileRows, RowTiles;
    forall k: nat, c: nat | k < Steps(j) && c < 32 ensures Misses(j, 32, 0, 0, 0, n, x, k, c) {
      FirstTileMiss(j, n, x, k, c);
    }
  }

  lemma FirstTileMiss(j: Job, n: nat, x: nat, k: nat, c: nat)
    requires j.p >= 64 && j.p % 32 == 0 && j.q > 0 && j.r > 0 && TileRows(j, 0) == 32 && k < Steps(j) && c < 32
    ensures Misses(j, 32, 0, 0, 0, n, x, k, c)
  {
    EightDivides(j.p);
    PaddedSizes(j);
    PaddedSteps(j);
    CountsPositive(j);
    FirstPanel(j, k);
    PanelAddr32(Padded(j), 32, 0);
    hide TileRows, Steps, BankGroups, PanelOffset, PanelAddr, WeightAddr, WeightOffset, TileSizes, Padded;
    MulMono(64, j.p, Padded(j).q);
  }

  lemma PaddedSteps(j: Job)
    ensures Padded(j).q == 32 * Steps(j) && Padded(j).r == 16 * BankGroups(j)
  {
  }

  /** Several row tiles and an inner dimension that is no multiple of 32: the second tile is read too early. */
  lemma EarlyPanel(j: Job)
    requires j.p >= 64 && j.p % 32 == 0 && j.q % 32 != 0 && j.r > 0 && j.r % 16 == 0 && TileRows(j, 32) == 32
    ensures BankGroups(j) > 0 && 1 < RowTiles(j) && ResultAddr(j, 32, 0) == 512 * TileNo(j, 1, 0) + 0
    ensures AllMiss(j, 32, 0, 0, 1, TileNo(j, 1, 0), 0)
  {
    CountsPositive(j);
    TileStep(j, 1);
    assert j.r == 16 * BankGroups(j);
    hide BankGroups, Steps, TileRows, RowTiles;
    forall k: nat, c: nat | k < Steps(j) && c < 32 ensures Misses(j, 32, 0, 0, 1, TileNo(j, 1, 0), 0, k, c) {
      SecondTileMiss(j, k, c);
    }
  }

  lemma SecondTileMiss(j: Job, k: nat, c: nat)
    requires j.p >= 64 && j.p % 32 == 0 && j.q % 32 != 0 && j.r > 0 && j.r % 16 == 0 && TileRows(j, 32) == 32 &&
      k < Steps(j) && c < 32
    ensures Misses(j, 32, 0, 0, 1, TileNo(j, 1, 0), 0, k, c)
  {
    EightDivides(j.p);
    PaddedSizes(j);
    PaddedSteps(j);
    CountsPositive(j);
    SecondPanel(j, k);
    PanelAddr32(Padded(j), 32, 0);
    hide TileRows, Steps, BankGroups, PanelOffset, PanelAddr, WeightAddr, WeightOffset, TileSizes, Padded, TileNo;
    var jp := Padded(j);
    MulMono(64, j.p, jp.q);
    if 32 * j.q + k * 1024 + 32 * c == 32 * jp.q {
      assert k == 0 && c == jp.q - j.q;
      PaddedBounds(j);
      EarlyWeight(j, TileNo(j, 1, 0), 0, c);
    }
  }

  lemma SecondPanel(j: Job, k: nat)
    requires j.p >= 64 && TileRows(j, 32) == 32 && 32 * k < j.q
    ensures PanelOffset(j, 1, k) == 32 * j.q + k * 1024
  {
    hide TileRows;
    MulMono(64, j.p, j.q);
    NoWrap(32 * j.q + k * 1024, j.p * j.q);
  }

  lemma EarlyWeight(j: Job, n: nat, k: nat, c: nat)
    requires j.p % 8 == 0 && j.q > 0 && j.r > 0 && 0 < c == Padded(j).q - j.q && j.r <= Padded(j).r
    ensures WeightOffset(j, n, k) + c < Padded(j).q * Padded(j).r &&
      WeightOffset(j, n, k) + c != WeightAddr(Padded(j), 0, 0)
  {
    hide Padded, Steps, BankGroups;
    MulMono(1, j.q, j.r);
    ModBelow(512 * (n * Steps(j) + k), j.q * j.r);
    MulMono(j.r, Padded(j).r, Padded(j).q);
    MulMono(1, j.r, c);
    assert Padded(j).q * j.r == j.q * j.r + c * j.r;
  }

  lemma SizeCases(j: Job, rows: nat)
    requires HostSizes(j, rows) && !HostFits(j)
    ensures j.p == 32 ==> j.q * j.r <= 512 * (BankGroups(j) * Steps(j) - 1)
    ensures j.p != 32 ==> j.p >= 64 && 32 < rows && (j.r % 16 != 0 || j.q % 32 != 0)
    ensures j.p > 0 && j.q > 0 && j.r > 0
  {
    hide BankGroups, Steps;
  }

  lemma LostProduct(j: Job)
    requires j.p == 32 && j.q > 0 && j.r > 0
    ensures BankGroups(j) > 0 && Steps(j) > 0 && 32 * (Steps(j) - 1) < j.q && 16 * (BankGroups(j) - 1) < j.r
    ensures ResultAddr(j, 0, 16 * (BankGroups(j) - 1)) == 512 * TileNo(j, 0, BankGroups(j) - 1) + 0
  {
    CountsPositive(j);
    hide BankGroups, Steps;
  }

  /** For sizes that do not fit: a single one in each matrix whose product is lost, and where it is looked for. */
  lemma Misfit(j: Job, rows: nat) returns (i0: nat, k0: nat, c0: nat, t: nat, g: nat, x: nat)
    requires HostSizes(j, rows) && !HostFits(j)
    ensures i0 < rows && k0 < j.q && c0 < j.r && t < RowTiles(j) && g < BankGroups(j) && x < 512 && x % 32 == 0
    ensures ResultAddr(j, i0, c0) == 512 * TileNo(j, t, g) + x && AllMiss(j, i0, k0, c0, t, TileNo(j, t, g), x)
  {
    SizeCases(j, rows);
    TileStep(j, 0);
    FullRows(j, rows, 0);
    hide AllMiss, TileRows, RowTiles, HostSizes, HostFits, ResultAddr, BankGroups, Steps;
    if j.p == 32 {
      LostProduct(j);
      WrapMisses(j);
      i0, k0, c0, t, g, x := 0, 32 * (Steps(j) - 1), 16 * (BankGroups(j) - 1), 0, BankGroups(j) - 1, 0;
      SizesPositive(j, rows);
    } else if j.r % 16 != 0 {
      ShiftedRows(j);
      i0, k0, c0, t, g, x := 32, 0, 0, 0, BankGroups(j) - 1, 32 * (j.r % 16);
    } else {
      TileStep(j, 1);
      FullRows(j, rows, 1);
      EarlyPanel(j);
      i0, k0, c0, t, g, x := 32, 0, 0, 1, 0, 0;
    }
  }

  lemma SizesPositive(j: Job, rows: nat)
    requires HostSizes(j, rows)
    ensures rows > 0
  {
  }

  /** A DRAM holding two buffers. */
  function HoldingTwo(a: int, sa: seq<int>, b: int, sb: seq<int>): Dram {
    x => if a <= x < a + |sa| then sa[x - a] else if b <= x < b + |sb| then sb[x - b] else 0
  }

  lemma HoldingBoth(a: int, sa: seq<int>, b: int, sb: seq<int>)
    requires Separate(a, |sa|, b, |sb|)
    ensures Loaded(HoldingTwo(a, sa, b, sb), a, sa) && Loaded(HoldingTwo(a, sa, b, sb), b, sb)
  {
  }

  /** The layouts of A and B do not overlap. */
  ghost predicate LayoutsApart(pf: Platform, j: Job) {
    Separate(pf.DevAddr(j.srcA) / 2, j.p * Padded(j).q, pf.DevAddr(j.srcB) / 2, Padded(j).q * Padded(j).r)
  }

  ghost predicate AlwaysRight(pf: Platform, j: Job, rows: nat) {
    forall srcA: seq<int>, srcB: seq<int>, st: State {:trigger JobRight(pf, j, rows, srcA, srcB, st)} ::
      LaidOut(pf, j, rows, srcA, srcB, st) ==> JobRight(pf, j, rows, srcA, srcB, st)
  }

  lemma LaidOutExists(pf: Platform, j: Job, rows: nat, srcA: seq<int>, srcB: seq<int>) returns (st: State)
    requires LayoutsApart(pf, j) && |srcA| == Area(rows, j.q) && |srcB| == Area(j.q, j.r)
    ensures LaidOut(pf, j, rows, srcA, srcB, st)
  {
    hide Widened, Loaded, Area, Padded;
    var jp := Padded(j);
    var sa, sb := PanelLayout(jp, Widened(srcA, rows, j.q, jp.q), rows),
      WeightLayout(jp, Widened(srcB, j.q, j.r, jp.r));
    SameBuffers(pf, j);
    PaddedRows(j);
    HoldingBoth(pf.DevAddr(j.srcA) / 2, sa, pf.DevAddr(j.srcB) / 2, sb);
    st := State(HoldingTwo(pf.DevAddr(j.srcA) / 2, sa, pf.DevAddr(j.srcB) / 2, sb), [], ZeroAcc(), false);
  }

  lemma PaddedRows(j: Job)
    ensures Padded(j).p == j.p
  {
  }

  /**
   The host's decoupled job of the 32x1 build is right for all matrices exactly when it fits: q a multiple
   of 32 and r of 16, or a single row tile whose last weight block is reached without wrapping.
   */
  lemma DecoupledHostExact(pf: Platform, j: Job, rows: nat)
    requires HostSizes(j, rows) && DecoupledBuffers(pf, j) && LayoutsApart(pf, j)
    ensures HostFits(j) <==> AlwaysRight(pf, j, rows)
  {
    hide HostSizes, HostFits, JobRight, LaidOut, DecoupledBuffers, LayoutsApart, Unit, AllMiss, TileNo, RowTiles,
         BankGroups, ResultAddr;
    if HostFits(j) {
      forall srcA: seq<int>, srcB: seq<int>, st: State | LaidOut(pf, j, rows, srcA, srcB, st)
        ensures JobRight(pf, j, rows, srcA, srcB, st)
      {
        FitRight(pf, j, rows, srcA, srcB, st);
      }
    } else {
      var i0, k0, c0, t, g, x := Misfit(j, rows);
      var st := LaidOutExists(pf, j, rows, UnitA(j, rows, i0, k0), UnitB(j, k0, c0));
      UnitWrong(pf, j, rows, i0, k0, c0, t, g, x, st);
    }
  }
}
