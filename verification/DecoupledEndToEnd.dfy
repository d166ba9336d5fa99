/**
 A whole decoupled job: the host lays out inputs and weights, the device executes the chain, and the
 result read in the result layout is what the host's own triple loop, `mat_mul_CPU`, computes.
 */
module DecoupledEndToEnd {
  import opened Arith
  import opened Sums
  import opened Machine
  import opened DescMem
  import opened Decoupled
  import opened DecoupledRuns
  import opened DecoupledResults
  import opened DecoupledHost
  import opened GemmHost
  import opened GemmEndToEnd

  // ----- weight layout

  /** The weight that flat element d of the layout holds: bank (d % 512) / 32 of one group-by-step block. */
  function WeightAt(j: Job, src: seq<int>, d: nat): int {
    if Steps(j) == 0 then 0 else
      var k, c := 32 * ((d / 512) % Steps(j)) + d % 512 % 32, 16 * ((d / 512) / Steps(j)) + d % 512 / 32;
      At(src, k * j.r + c)
  }

  function WeightLayout(j: Job, src: seq<int>): (s: seq<int>)
    ensures |s| == j.q * j.r
  {
    seq(j.q * j.r, d requires 0 <= d < j.q * j.r => WeightAt(j, src, d))
  }

  /** The layout holds weight (32 * kk + ki, 16 * g + ji) at element 32 * ji + ki of block g * Steps + kk. */
  lemma WeightPlace(j: Job, src: seq<int>, g: nat, kk: nat, ji: nat, ki: nat)
    requires TileSizes(j) && g < BankGroups(j) && kk < Steps(j) && ji < 16 && ki < 32
    ensures var d := WeightBlock(j, g, kk) + 32 * ji + ki;
      d < |WeightLayout(j, src)| && WeightLayout(j, src)[d] == At(src, Flat(32 * kk + ki, 16 * g + ji, j.r))
  {
    hide Steps, BankGroups, TileSizes, Flat;
    WeightBlockBound(j, g, kk);
    WeightValueAt(j, src, g, kk, ji, ki);
  }

  lemma WeightValueAt(j: Job, src: seq<int>, g: nat, kk: nat, ji: nat, ki: nat)
    requires kk < Steps(j) && ji < 16 && ki < 32
    ensures WeightAt(j, src, WeightBlock(j, g, kk) + 32 * ji + ki) == At(src, Flat(32 * kk + ki, 16 * g + ji, j.r))
  {
    hide Steps;
    DivMod(g, kk, Steps(j));
    BankAndRow(ki, ji);
    BlockOf(g * Steps(j) + kk, 32 * ji + ki);
  }

  /** A widened matrix of `rows` rows, read as one with zero rows below. */
  lemma WidenedAt(src: seq<int>, rows: nat, cols: nat, wide: nat, k: nat, c: nat)
    requires |src| == Area(rows, cols) && cols <= wide && c < wide
    ensures k < rows && c < cols ==> 0 <= Flat(k, c, cols) < |src|
    ensures At(Widened(src, rows, cols, wide), Flat(k, c, wide)) ==
      if k < rows && c < cols then src[Flat(k, c, cols)] else 0
  {
    if k < rows {
      hide Widened, Flat;
      WidenedCell(src, rows, cols, wide, k, c);
    } else {
      hide Widened;
      MulMono(rows, k, wide);
    }
  }

  /** Where block (g, kk) of 512 weights starts. */
  function WeightBlock(j: Job, g: nat, kk: nat): nat {
    (g * Steps(j) + kk) * 512
  }

  lemma WeightBlockBound(j: Job, g: nat, kk: nat)
    requires TileSizes(j) && g < BankGroups(j) && kk < Steps(j)
    ensures WeightBlock(j, g, kk) + 512 <= j.q * j.r
  {
    WeightCount(j);
    hide Steps, BankGroups, TileSizes;
    RowMajorBound(g, BankGroups(j), kk, Steps(j));
  }

  lemma WeightRow(j: Job, g: nat)
    requires TileSizes(j)
    ensures WeightBlock(j, g, Steps(j)) == WeightBlock(j, g + 1, 0) && WeightBlock(j, 0, 0) == 0
    ensures WeightBlock(j, BankGroups(j), 0) == j.q * j.r
  {
    WeightCount(j);
    hide Steps, BankGroups, TileSizes;
  }

  lemma WeightNext(j: Job, g: nat, kk: nat)
    ensures WeightBlock(j, g, kk + 1) == WeightBlock(j, g, kk) + 512
  {
  }

  /** Weight layout: 16 columns at a time, 32 rows at a time, bank by bank, with zero padding. */
  method LayoutWeights(src: array<int>, j: Job, A_COL: nat, B_COL: nat) returns (buf: array<int>)
    requires TileSizes(j) && A_COL <= j.q && B_COL <= j.r && src.Length == Area(A_COL, B_COL)
    ensures buf[..] == WeightLayout(j, Widened(src[..], A_COL, B_COL, j.r))
  {
    hide WeightLayout, TileSizes, BankGroups, Steps, WeightBlock, Area, Widened;
    buf := new int[j.q * j.r];
    ghost var target := WeightLayout(j, Widened(src[..], A_COL, B_COL, j.r));
    var cnt, jo := 0, 0;
    ghost var g: nat := 0;
    GroupStep(j, 0);
    WeightRow(j, 0);
    while jo < j.r
      invariant jo == 16 * g && g <= BankGroups(j) && (g < BankGroups(j) <==> jo < j.r)
      invariant cnt == WeightBlock(j, g, 0) <= |target| && buf[..cnt] == target[..cnt]
      decreases BankGroups(j) - g
    {
      cnt := LayoutBankGroup(src, buf, j, A_COL, B_COL, jo, g, cnt, target);
      WeightRow(j, g);
      jo, g := jo + 16, g + 1;
      GroupStep(j, g);
    }
    assert buf[..] == target;
  }

  method LayoutBankGroup(src: array<int>, buf: array<int>, j: Job, A_COL: nat, B_COL: nat, jo: nat, ghost g: nat,
                         start: nat,
                         ghost target: seq<int>)
    returns (cnt: nat)
    requires TileSizes(j) && A_COL <= j.q && B_COL <= j.r && src.Length == Area(A_COL, B_COL) && src != buf
    requires g < BankGroups(j) && jo == 16 * g
    requires target == WeightLayout(j, Widened(src[..], A_COL, B_COL, j.r)) && buf.Length == |target|
    requires start == WeightBlock(j, g, 0) && start <= |target| && buf[..start] == target[..start]
    modifies buf
    ensures cnt == WeightBlock(j, g, Steps(j)) <= |target| && buf[..cnt] == target[..cnt]
  {
    hide WeightLayout, TileSizes, BankGroups, Steps, WeightBlock, Area, Widened;
    cnt := start;
    var ko := 0;
    ghost var kk: nat := 0;
    StepStep(j, 0);
    while ko < j.q
      invariant ko == 32 * kk && kk <= Steps(j) && (kk < Steps(j) <==> ko < j.q)
      invariant cnt == WeightBlock(j, g, kk) <= |target| && buf[..cnt] == target[..cnt]
      decreases Steps(j) - kk
    {
      WeightBlockBound(j, g, kk);
      WeightNext(j, g, kk);
      cnt := LayoutWeightBlock(src, buf, j, A_COL, B_COL, jo, g, ko, kk, cnt, target);
      ko, kk := ko + 32, kk + 1;
      StepStep(j, kk);
    }
  }

  /** One block of 16 columns by 32 rows. */
  method LayoutWeightBlock(src: array<int>, buf: array<int>, j: Job, A_COL: nat, B_COL: nat, jo: nat, ghost g: nat,
                           ko: nat,
                           ghost kk: nat, start: nat, ghost target: seq<int>)
    returns (cnt: nat)
    requires TileSizes(j) && A_COL <= j.q && B_COL <= j.r && src.Length == Area(A_COL, B_COL) && src != buf
    requires g < BankGroups(j) && jo == 16 * g && kk < Steps(j) && ko == 32 * kk
    requires target == WeightLayout(j, Widened(src[..], A_COL, B_COL, j.r)) && buf.Length == |target|
    requires start == WeightBlock(j, g, kk) && start + 512 <= |target| && buf[..start] == target[..start]
    modifies buf
    ensures cnt == start + 512 && buf[..cnt] == target[..cnt]
  {
    hide WeightLayout, TileSizes, BankGroups, Steps, WeightBlock, Area, Flat, Widened;
    ghost var s := src[..];
    cnt := start;
    var ji := 0;
    while ji < 16
      invariant ji <= 16 && cnt == start + 32 * ji && buf[..cnt] == target[..cnt] && src[..] == s
    {
      var ki := 0;
      while ki < 32
        invariant ki <= 32 && cnt == start + 32 * ji + ki && buf[..cnt] == target[..cnt] && src[..] == s
      {
        WeightPlace(j, Widened(s, A_COL, B_COL, j.r), g, kk, ji, ki);
        BankColumn(j, g, ji);
        WidenedAt(s, A_COL, B_COL, j.r, ko + ki, jo + ji);
        if ko + ki < A_COL && jo + ji < B_COL {
          var v := Fetch(src, ko + ki, jo + ji, B_COL);
          Put(buf, cnt, v, target);
        } else {
          Put(buf, cnt, 0, target);
        }
        cnt, ki := cnt + 1, ki + 1;
      }
      ji := ji + 1;
    }
  }

  lemma BankColumn(j: Job, g: nat, ji: nat)
    requires TileSizes(j) && g < BankGroups(j) && ji < 16
    ensures 16 * g + ji < j.r
  {
    WeightCount(j);
    hide BankGroups, TileSizes, Steps;
  }

  // ----- the reference

  /** The host's reference loop: it accumulates into dst. */
  method MatMulCpu(srcA: array<int>, srcB: array<int>, dst: array<int>, p: nat, q: nat, r: nat)
    requires srcA.Length == p * q && srcB.Length == q * r && dst.Length == p * r
    requires dst != srcA && dst != srcB
    modifies dst
    ensures dst[..] == CpuResult(srcA[..], srcB[..], old(dst[..]), p, q, r)
  {
    hide CpuResult;
    ghost var was, d := dst[..], 0;
    ghost var target := CpuResult(srcA[..], srcB[..], was, p, q, r);
    var i := 0;
    while i < p
      invariant i <= p && d == i * r <= |target| && dst[..d] == target[..d] && dst[d..] == was[d..]
    {
      var c := 0;
      while c < r
        invariant c <= r && d == i * r + c <= |target| && dst[..d] == target[..d] && dst[d..] == was[d..]
      {
        CpuCell(srcA[..], srcB[..], was, p, q, r, i, c);
        AccumulateCell(srcA, srcB, dst, p, q, r, i, c, d);
        PrefixStep(dst[..], target, d);
        c, d := c + 1, d + 1;
      }
      i := i + 1;
    }
    assert dst[..] == target;
  }

  /** The innermost loop. */
  method AccumulateCell(srcA: array<int>, srcB: array<int>, dst: array<int>, p: nat, q: nat, r: nat, i: nat, c: nat,
                        ghost d: nat)
    requires srcA.Length == p * q && srcB.Length == q * r && i < p && c < r
    requires dst != srcA && dst != srcB && d == i * r + c < dst.Length
    modifies dst
    ensures dst[..] == old(dst[..])[d := old(dst[d]) + Dot(Rows(srcA[..], q), Rows(srcB[..], r), i, c, q)]
  {
    ghost var was := dst[..];
    var k := 0;
    while k < q
      invariant k <= q && dst[..] == was[d := was[d] + Dot(Rows(srcA[..], q), Rows(srcB[..], r), i, c, k)]
    {
      RowMajorBound(i, p, k, q);
      RowMajorBound(k, q, c, r);
      dst[i * r + c] := dst[i * r + c] + srcA[i * q + k] * srcB[k * r + c];
      k := k + 1;
    }
  }

  // ----- the job

  /** A and B are loaded in their layouts, the matrix having `rows` rows; the device is idle. */
  ghost predicate DecoupledLoaded(pf: Platform, j: Job, rows: nat, srcA: seq<int>, srcB: seq<int>, st: State) {
    && |srcA| == rows * j.q && |srcB| == j.q * j.r
    && Loaded(st.dram, pf.DevAddr(j.srcA) / 2, PanelLayout(j, srcA, rows))
    && Loaded(st.dram, pf.DevAddr(j.srcB) / 2, WeightLayout(j, srcB))
    && st.acc == ZeroAcc()
  }

  /** The first `rows` rows of the product, read from the result layout. */
  function DecoupledReadBack(pf: Platform, j: Job, rows: nat, m: Dram): (s: seq<int>)
    ensures |s| == rows * j.r
  {
    seq(rows * j.r, d requires 0 <= d < rows * j.r =>
      if j.r == 0 then 0 else m(pf.DevAddr(j.dstC) / 2 + ResultAddr(j, d / j.r, d % j.r)))
  }

  /** The host reads back what its reference loop computes from a zeroed C. */
  ghost predicate DecoupledRight(pf: Platform, j: Job, rows: nat, srcA: seq<int>, srcB: seq<int>, m: Dram) {
    DecoupledReadBack(pf, j, rows, m) == CpuResult(srcA, srcB, Zeros(rows * j.r), rows, j.q, j.r)
  }

  lemma ReadBackCell(pf: Platform, j: Job, rows: nat, m: Dram, i: nat, c: nat)
    requires i < rows && c < j.r
    ensures i * j.r + c < rows * j.r
    ensures DecoupledReadBack(pf, j, rows, m)[i * j.r + c] == m(pf.DevAddr(j.dstC) / 2 + ResultAddr(j, i, c))
  {
    DivMod(i, c, j.r);
    RowMajorBound(i, rows, c, j.r);
  }

  lemma LoadedPanel(pf: Platform, j: Job, rows: nat, srcA: seq<int>, m: Dram, i: nat, k: nat)
    requires LayoutSizes(j) && i < rows <= j.p && k < j.q
    requires Loaded(m, pf.DevAddr(j.srcA) / 2, PanelLayout(j, srcA, rows))
    ensures MemPanels(m, pf, j)(i, k) == Rows(srcA, j.q)(i, k)
  {
    TileOfRow(j, i);
    RowInTile(j, i);
    hide RowTiles, TileRows, PanelAddr, PanelLayout, LayoutSizes;
    PanelLayoutAt(j, srcA, rows, i / 32, i % 32, k);
    assert 32 * (i / 32) + i % 32 == i;
    assert m(pf.DevAddr(j.srcA) / 2 + PanelAddr(j, i, k)) == PanelLayout(j, srcA, rows)[PanelAddr(j, i, k)];
  }

  lemma TileOfRow(j: Job, i: nat)
    requires i < j.p
    ensures i / 32 < RowTiles(j) && i < 32 * RowTiles(j)
  {
    TileStep(j, i / 32);
  }

  lemma LoadedWeight(pf: Platform, j: Job, srcB: seq<int>, m: Dram, k: nat, c: nat)
    requires TileSizes(j) && k < j.q && c < j.r
    requires Loaded(m, pf.DevAddr(j.srcB) / 2, WeightLayout(j, srcB))
    ensures MemWeights(m, pf, j)(k, c) == Rows(srcB, j.r)(k, c)
  {
    StepStep(j, k / 32);
    GroupStep(j, c / 16);
    hide Steps, BankGroups, WeightLayout, TileSizes;
    WeightPlace(j, srcB, c / 16, k / 32, c % 16, k % 32);
    assert 32 * (k / 32) + k % 32 == k && 16 * (c / 16) + c % 16 == c;
    assert m(pf.DevAddr(j.srcB) / 2 + WeightAddr(j, k, c)) == WeightLayout(j, srcB)[WeightAddr(j, k, c)];
  }

  lemma LoadedDot(pf: Platform, j: Job, rows: nat, srcA: seq<int>, srcB: seq<int>, m: Dram, i: nat, c: nat)
    requires TileSizes(j) && i < rows <= j.p && c < j.r
    requires Loaded(m, pf.DevAddr(j.srcA) / 2, PanelLayout(j, srcA, rows))
    requires Loaded(m, pf.DevAddr(j.srcB) / 2, WeightLayout(j, srcB))
    ensures Dot(MemPanels(m, pf, j), MemWeights(m, pf, j), i, c, j.q) ==
      Dot(Rows(srcA, j.q), Rows(srcB, j.r), i, c, j.q)
  {
    PaddedLayout(j);
    hide PanelLayout, WeightLayout, Loaded, MemPanels, MemWeights, Rows, Dot, TileSizes, LayoutSizes;
    forall k: nat | k < j.q
      ensures MemPanels(m, pf, j)(i, k) == Rows(srcA, j.q)(i, k) && MemWeights(m, pf, j)(k, c) == Rows(srcB, j.r)(k, c)
    {
      LoadedPanel(pf, j, rows, srcA, m, i, k);
      LoadedWeight(pf, j, srcB, m, k, c);
    }
    DotExt(MemPanels(m, pf, j), MemWeights(m, pf, j), i, c, Rows(srcA, j.q), Rows(srcB, j.r), i, c, j.q);
  }

  lemma DecoupledElement(pf: Platform, j: Job, rows: nat, srcA: seq<int>, srcB: seq<int>, st: State, m': Dram,
                         i: nat, c: nat)
    requires TileSizes(j) && rows <= j.p && DecoupledLoaded(pf, j, rows, srcA, srcB, st)
    requires DecoupledOutcome(pf, j, st.dram, m') && i < rows && c < j.r
    ensures m'(pf.DevAddr(j.dstC) / 2 + ResultAddr(j, i, c)) == CpuAt(srcA, srcB, Zeros(rows * j.r), j.q, j.r, i, c)
  {
    hide RowTiles, ResultAddr, PanelLayout, WeightLayout, Loaded, MemPanels, MemWeights, Rows, Dot, TileSizes, Zeros;
    TileOfRow(j, i);
    ZeroAt(rows * j.r, i * j.r + c);
    LoadedDot(pf, j, rows, srcA, srcB, st.dram, i, c);
  }

  /**
   Layout, chain and read-back together compute what the reference loop computes from a zeroed C. In
   whole tiles of 32 rows the matrix may have fewer rows than the job; the layout pads them with zeros.
   */
  lemma DecoupledHostCorrect(pf: Platform, j: Job, rows: nat, srcA: seq<int>, srcB: seq<int>, st: State)
    requires TileSizes(j) && rows <= j.p && DecoupledBuffers(pf, j)
    requires DecoupledLoaded(pf, j, rows, srcA, srcB, st)
    ensures DecoupledRight(pf, j, rows, srcA, srcB,
      Exec(pf, DecoupledChain(pf, j, OPCODE_MAT_MUL_DECOUPLED_32x1), st).dram)
  {
    assert st.acc == ZeroAcc();
    var m' := Exec(pf, DecoupledChain(pf, j, OPCODE_MAT_MUL_DECOUPLED_32x1), st).dram;
    hide *;
    DecoupledCorrect(pf, j, st);
    DecoupledMatrix(pf, j, rows, srcA, srcB, st, m');
  }

  lemma DecoupledMatrix(pf: Platform, j: Job, rows: nat, srcA: seq<int>, srcB: seq<int>, st: State, m': Dram)
    requires TileSizes(j) && rows <= j.p && DecoupledLoaded(pf, j, rows, srcA, srcB, st)
    requires DecoupledOutcome(pf, j, st.dram, m')
    ensures DecoupledRight(pf, j, rows, srcA, srcB, m')
  {
    hide DecoupledLoaded, DecoupledOutcome, DecoupledReadBack, CpuResult, TileSizes, ResultAddr, Dot, CpuAt;
    var x, y := DecoupledReadBack(pf, j, rows, m'), CpuResult(srcA, srcB, Zeros(rows * j.r), rows, j.q, j.r);
    forall d | 0 <= d < rows * j.r ensures x[d] == y[d] {
      var i, c := RowAndCol(d, rows, j.r);
      ReadBackCell(pf, j, rows, m', i, c);
      CpuCell(srcA, srcB, Zeros(rows * j.r), rows, j.q, j.r, i, c);
      DecoupledElement(pf, j, rows, srcA, srcB, st, m', i, c);
    }
    assert x == y;
  }
}
