/**
 The host side of a decoupled job: the loops that lay out inputs and weights, the loop that reads the
 result back, and the reference product `mat_mul_CPU`.

 The host draws its matrices element by element while it lays them out; here the row-major matrix is
 given, which is the same thing because every element is drawn once.
 */
module DecoupledHost {
  import opened Arith
  import opened Machine
  import opened DescMem
  import opened Decoupled
  import opened DecoupledRuns
  import opened DecoupledResults
  import opened GemmHost

  // ----- input layout

  /** Row and column of a panel that its flat element w holds. */
  function RowInPanel(opcode: nat, h: nat, w: nat): int
    requires h > 0
  {
    if opcode == OPCODE_MAT_MUL_DECOUPLED_8x4 then 8 * ((w % (4 * h)) / 32) + ((w % (4 * h)) % 32) % 8 else w % h
  }

  function ColInPanel(opcode: nat, h: nat, w: nat): int
    requires h > 0
  {
    if opcode == OPCODE_MAT_MUL_DECOUPLED_8x4 then 4 * (w / (4 * h)) + ((w % (4 * h)) % 32) / 8 else w / h
  }

  lemma PanelInverse(opcode: nat, h: nat, row: nat, c: nat)
    requires row < h && (opcode == OPCODE_MAT_MUL_DECOUPLED_8x4 ==> h % 8 == 0)
    ensures RowInPanel(opcode, h, PanelPos(opcode, h, row, c)) == row
    ensures ColInPanel(opcode, h, PanelPos(opcode, h, row, c)) == c
  {
    if opcode == OPCODE_MAT_MUL_DECOUPLED_8x4 {
      var u := (row / 8) * 32 + (c % 4) * 8 + row % 8;
      assert u < 4 * h by { assert row / 8 + 1 <= h / 8; }
      DivMod(c / 4, u, 4 * h);
      InBurst(row, c, u);
    } else {
      DivMod(c, row, h);
    }
  }

  lemma InBurst(row: nat, c: nat, u: nat)
    requires u == (row / 8) * 32 + (c % 4) * 8 + row % 8
    ensures 8 * (u / 32) + (u % 32) % 8 == row && 4 * (c / 4) + (u % 32) / 8 == c
  {
    assert u / 32 == row / 8 && u % 32 == (c % 4) * 8 + row % 8;
  }

  /** The element the layout holds at flat position d: zero below the last row of the matrix. */
  function PanelAt(j: Job, src: seq<int>, rows: nat, d: nat): int {
    if j.q == 0 || d / (32 * j.q) >= RowTiles(j) || TileRows(j, 32 * (d / (32 * j.q))) == 0 then 0
    else
      var t, w := d / (32 * j.q), d % (32 * j.q);
      var i, k := 32 * t + RowInPanel(JobMode(j), TileRows(j, 32 * t), w),
        ColInPanel(JobMode(j), TileRows(j, 32 * t), w);
      if i < rows then At(src, i * j.q + k) else 0
  }

  function PanelLayout(j: Job, src: seq<int>, rows: nat): (s: seq<int>)
    ensures |s| == j.p * j.q
  {
    seq(j.p * j.q, d requires 0 <= d < j.p * j.q => PanelAt(j, src, rows, d))
  }

  lemma PanelLayoutAt(j: Job, src: seq<int>, rows: nat, t: nat, row: nat, k: nat)
    requires LayoutSizes(j) && t < RowTiles(j) && row < TileRows(j, 32 * t) && k < j.q
    ensures PanelAddr(j, 32 * t + row, k) < j.p * j.q
    ensures PanelLayout(j, src, rows)[PanelAddr(j, 32 * t + row, k)] ==
      if 32 * t + row < rows then At(src, (32 * t + row) * j.q + k) else 0
  {
    hide RowTiles, TileRows, PanelPos, RowInPanel, ColInPanel, LayoutSizes;
    PanelAddrBound(j, t, row, k);
    PanelPlace(j, t, row, k);
    var h := TileRows(j, 32 * t);
    PanelInverse(JobMode(j), h, row, k);
  }

  lemma PanelPlace(j: Job, t: nat, row: nat, k: nat)
    requires LayoutSizes(j) && t < RowTiles(j) && row < TileRows(j, 32 * t) && k < j.q
    ensures var h := TileRows(j, 32 * t); var d := PanelAddr(j, 32 * t + row, k);
      && h % 8 == 0 && d / (32 * j.q) == t && d % (32 * j.q) == PanelPos(JobMode(j), h, row, k)
  {
    PanelAddrBound(j, t, row, k);
    hide RowTiles, TileRows, PanelPos, PanelAddr, LayoutSizes, JobMode;
    DivMod(t, PanelPos(JobMode(j), TileRows(j, 32 * t), row, k), 32 * j.q);
  }

  function Area(rows: nat, cols: nat): nat { rows * cols }

  /** Index of element (i, k) in a row-major buffer. */
  function Flat(i: int, k: int, cols: int): int { i * cols + k }

  /** Where columns 4 * n on of tile t start in the 8x4 layout. */
  function ColumnStart(j: Job, t: nat, n: nat): nat {
    TileStart(j, t) + n * (4 * TileRows(j, 32 * t))
  }

  /** The layout holds matrix element (32 * t + row, k) at its panel address. */
  lemma PlaceAt(j: Job, src: seq<int>, rows: nat, t: nat, row: nat, k: nat, d: nat)
    requires LayoutSizes(j) && t < RowTiles(j) && row < TileRows(j, 32 * t) && k < j.q && |src| == Area(rows, j.q)
    requires d == PanelAddr(j, 32 * t + row, k)
    ensures d < |PanelLayout(j, src, rows)| && (32 * t + row < rows ==> 0 <= Flat(32 * t + row, k, j.q) < |src|)
    ensures PanelLayout(j, src, rows)[d] == if 32 * t + row < rows then src[Flat(32 * t + row, k, j.q)] else 0
  {
    hide RowTiles, TileRows, PanelLayout, PanelAddr, LayoutSizes;
    PanelLayoutAt(j, src, rows, t, row, k);
    if 32 * t + row < rows {
      RowMajorBound(32 * t + row, rows, k, j.q);
    }
  }

  /** Element (i, k) of a row-major buffer. */
  method Fetch(src: array<int>, i: nat, k: nat, cols: nat) returns (v: int)
    requires 0 <= Flat(i, k, cols) < src.Length
    ensures v == src[..][Flat(i, k, cols)]
  {
    v := src[i * cols + k];
  }

  /** Stores the next element of a buffer that is being filled front to back. */
  method Put(buf: array<int>, idx: nat, v: int, ghost target: seq<int>)
    requires idx < buf.Length == |target| && buf[..idx] == target[..idx] && target[idx] == v
    modifies buf
    ensures buf[..idx + 1] == target[..idx + 1]
  {
    buf[idx] := v;
    PrefixStep(buf[..], target, idx);
  }

  /** A row-major matrix with its rows widened by zeros. */
  function Widened(src: seq<int>, rows: nat, cols: nat, wide: nat): (s: seq<int>)
    ensures |s| == Area(rows, wide)
  {
    if wide == 0 then [] else PaddedMatrix(src, rows, cols, wide)
  }

  lemma WidenedCell(src: seq<int>, rows: nat, cols: nat, wide: nat, i: nat, k: nat)
    requires |src| == Area(rows, cols) && i < rows && k < wide
    ensures 0 <= Flat(i, k, wide) < |Widened(src, rows, cols, wide)|
    ensures k < cols ==> 0 <= Flat(i, k, cols) < |src|
    ensures Widened(src, rows, cols, wide)[Flat(i, k, wide)] == if k < cols then src[Flat(i, k, cols)] else 0
  {
    hide PaddedMatrix;
    RowMajorBound(i, rows, k, wide);
    PaddedCell(src, rows, cols, wide, i, k);
    if k < cols {
      RowMajorBound(i, rows, k, cols);
    }
  }

  /** Input layout for whole tiles of 32 rows: tile by tile, column by column, with zero padding. */
  method LayoutInput32x1(src: array<int>, j: Job, A_ROW: nat, A_COL: nat) returns (buf: array<int>)
    requires LayoutSizes(j) && j.p % 32 == 0 && A_ROW <= j.p && A_COL <= j.q && src.Length == Area(A_ROW, A_COL)
    ensures buf[..] == PanelLayout(j, Widened(src[..], A_ROW, A_COL, j.q), A_ROW)
  {
    hide PanelLayout, LayoutSizes, RowTiles, TileRows, TileStart, Widened, Area;
    buf := new int[j.p * j.q];
    TileStartZero(j);
    ghost var target := PanelLayout(j, Widened(src[..], A_ROW, A_COL, j.q), A_ROW);
    var idx, io := 0, 0;
    ghost var t: nat := 0;
    TileStep(j, 0);
    while io < j.p
      invariant io == 32 * t && t <= RowTiles(j) && (t < RowTiles(j) <==> io < j.p)
      invariant idx == TileStart(j, t) <= |target| && buf[..idx] == target[..idx]
      decreases RowTiles(j) - t
    {
      TileStartStep(j, t);
      idx := LayoutTile32x1(src, buf, j, A_ROW, A_COL, io, t, idx, target);
      io, t := io + REG_SIZE, t + 1;
      TileStep(j, t);
    }
    TileStartEnd(j, t);
    assert buf[..] == target;
  }

  /** Where tile t starts in the input layout. */
  function TileStart(j: Job, t: nat): nat {
    if 32 * t < j.p then 32 * t * j.q else j.p * j.q
  }

  lemma TileStartZero(j: Job)
    ensures TileStart(j, 0) == 0
  {
  }

  lemma TileStartStep(j: Job, t: nat)
    requires LayoutSizes(j) && t < RowTiles(j)
    ensures TileStart(j, t) == 32 * t * j.q
    ensures TileStart(j, t + 1) == TileStart(j, t) + TileRows(j, 32 * t) * j.q <= j.p * j.q
  {
    TileStep(j, t);
    TileStep(j, t + 1);
    TileRowsFacts(j, t);
    hide RowTiles, TileRows;
    var h := TileRows(j, 32 * t);
    MulMono(32 * t + h, j.p, j.q);
    assert (32 * t + h) * j.q == 32 * t * j.q + h * j.q;
  }

  lemma TileStartEnd(j: Job, t: nat)
    requires t >= RowTiles(j)
    ensures TileStart(j, t) == j.p * j.q
  {
    TileStep(j, t);
  }

  method LayoutTile32x1(src: array<int>, buf: array<int>, j: Job, A_ROW: nat, A_COL: nat, io: nat, ghost t: nat,
                        start: nat, ghost target: seq<int>)
    returns (idx: nat)
    requires LayoutSizes(j) && j.p % 32 == 0 && A_ROW <= j.p && A_COL <= j.q && src.Length == Area(A_ROW, A_COL) &&
      src != buf
    requires t < RowTiles(j) && io == 32 * t && start == TileStart(j, t)
    requires target == PanelLayout(j, Widened(src[..], A_ROW, A_COL, j.q), A_ROW)
    requires buf.Length == |target| && start <= |target| && buf[..start] == target[..start]
    modifies buf
    ensures idx == TileStart(j, t + 1) <= |target| && buf[..idx] == target[..idx]
  {
    FullTile(j, t);
    hide PanelLayout, LayoutSizes, RowTiles, TileRows, TileStart, Area, Widened;
    idx := start;
    var k := 0;
    while k < j.q
      invariant k <= j.q && idx == start + k * 32 && buf[..idx] == target[..idx]
    {
      idx := LayoutColumn32x1(src, buf, j, A_ROW, A_COL, io, t, k, idx, target);
      k := k + 1;
    }
  }

  lemma FullTile(j: Job, t: nat)
    requires LayoutSizes(j) && j.p % 32 == 0 && t < RowTiles(j)
    ensures TileStart(j, t + 1) == TileStart(j, t) + j.q * 32 <= j.p * j.q
  {
    TileStartStep(j, t);
    TileRowsFacts(j, t);
  }

  /** One column of one tile: its 32 rows. */
  method LayoutColumn32x1(src: array<int>, buf: array<int>, j: Job, A_ROW: nat, A_COL: nat, io: nat, ghost t: nat,
                          k: nat, start: nat,
                          ghost target: seq<int>)
    returns (idx: nat)
    requires LayoutSizes(j) && j.p % 32 == 0 && A_ROW <= j.p && A_COL <= j.q && src.Length == Area(A_ROW, A_COL) &&
      src != buf
    requires t < RowTiles(j) && io == 32 * t && k < j.q && start == TileStart(j, t) + k * 32
    requires target == PanelLayout(j, Widened(src[..], A_ROW, A_COL, j.q), A_ROW)
    requires buf.Length == |target| && start <= |target| && buf[..start] == target[..start]
    modifies buf
    ensures idx == start + 32 <= |target| && buf[..idx] == target[..idx]
  {
    hide PanelLayout, LayoutSizes, RowTiles, TileRows, TileStart, Area, Flat, Widened;
    ghost var s := src[..];
    idx := start;
    var ii := 0;
    while ii < REG_SIZE
      invariant ii <= REG_SIZE && idx == start + ii <= |target| && buf[..idx] == target[..idx] && src[..] == s
    {
      Place32x1(j, Widened(s, A_ROW, A_COL, j.q), A_ROW, t, ii, k, idx);
      if io + ii < A_ROW {
        WidenedCell(s, A_ROW, A_COL, j.q, io + ii, k);
      }
      if io + ii < A_ROW && k < A_COL {
        var v := Fetch(src, io + ii, k, A_COL);
        Put(buf, idx, v, target);
      } else {
        Put(buf, idx, 0, target);
      }
      idx, ii := idx + 1, ii + 1;
    }
  }

  lemma Place32x1(j: Job, src: seq<int>, rows: nat, t: nat, ii: nat, k: nat, d: nat)
    requires LayoutSizes(j) && j.p % 32 == 0 && t < RowTiles(j) && ii < 32 && k < j.q
    requires |src| == Area(rows, j.q) && d == TileStart(j, t) + k * 32 + ii
    ensures d < |PanelLayout(j, src, rows)| && (32 * t + ii < rows ==> 0 <= Flat(32 * t + ii, k, j.q) < |src|)
    ensures PanelLayout(j, src, rows)[d] == if 32 * t + ii < rows then src[Flat(32 * t + ii, k, j.q)] else 0
  {
    TileRowsFacts(j, t);
    TileStartStep(j, t);
    PanelAddr32x1(j, t, ii, k);
    hide RowTiles, TileRows, PanelLayout, TileStart, PanelAddr, LayoutSizes, Area, Flat;
    PlaceAt(j, src, rows, t, ii, k, d);
  }

  lemma PanelAddr32x1(j: Job, t: nat, ii: nat, k: nat)
    requires TileRows(j, 32 * t) == 32 && ii < 32 && JobMode(j) != OPCODE_MAT_MUL_DECOUPLED_8x4
    ensures PanelAddr(j, 32 * t + ii, k) == 32 * t * j.q + k * 32 + ii
  {
    hide TileRows, JobMode;
    assert (32 * t + ii) / 32 == t && (32 * t + ii) % 32 == ii;
    assert t * (32 * j.q) == 32 * t * j.q;
  }

  /** Input layout for the 8x4 mode: four columns at a time, eight rows at a time. */
  method LayoutInput8x4(src: array<int>, j: Job) returns (buf: array<int>)
    requires LayoutSizes(j) && j.p % 32 != 0 && src.Length == j.p * j.q
    ensures buf[..] == PanelLayout(j, src[..], j.p)
  {
    hide PanelLayout, LayoutSizes, RowTiles, TileRows;
    buf := new int[j.p * j.q];
    ghost var target := PanelLayout(j, src[..], j.p);
    var idx, io := 0, 0;
    ghost var t: nat := 0;
    TileStep(j, 0);
    while io < j.p
      invariant io == 32 * t && t <= RowTiles(j) && (t < RowTiles(j) <==> io < j.p)
      invariant idx == TileStart(j, t) <= |target| && buf[..idx] == target[..idx]
      decreases RowTiles(j) - t
    {
      TileStartStep(j, t);
      idx := LayoutTile8x4(src, buf, j, io, t, idx, target);
      io, t := io + REG_SIZE, t + 1;
      TileStep(j, t);
    }
    TileStartEnd(j, t);
    assert buf[..] == target;
  }

  method LayoutTile8x4(src: array<int>, buf: array<int>, j: Job, io: nat, ghost t: nat, start: nat,
                       ghost target: seq<int>) returns (idx: nat)
    requires LayoutSizes(j) && j.p % 32 != 0 && src.Length == Area(j.p, j.q) && src != buf
    requires t < RowTiles(j) && io == 32 * t && start == TileStart(j, t)
    requires target == PanelLayout(j, src[..], j.p) && buf.Length == |target| && start <= |target| &&
      buf[..start] == target[..start]
    modifies buf
    ensures idx == TileStart(j, t + 1) <= |target| && buf[..idx] == target[..idx]
  {
    TileStartStep(j, t);
    QuarterSteps(j);
    hide PanelLayout, RowTiles, TileRows, TileStart, LayoutSizes;
    ghost var h := TileRows(j, 32 * t);
    idx := start;
    var ko := 0;
    ghost var n: nat := 0;
    while ko < j.q
      invariant ko == 4 * n && ko <= j.q && idx == start + n * (4 * h) && n * (4 * h) <= h * j.q
      invariant buf[..idx] == target[..idx]
      decreases j.q - ko
    {
      StepFits(j.q, h, n);
      idx := LayoutColumns8x4(src, buf, j, io, t, ko, n, idx, target);
      ko, n := ko + REG_SIZE / COMPUTE_WAY, n + 1;
    }
    StepsWhole(j.q, h, n);
  }

  lemma QuarterSteps(j: Job)
    requires LayoutSizes(j) && j.p % 32 != 0
    ensures j.q % 4 == 0
  {
  }

  lemma StepFits(q: nat, h: nat, n: nat)
    requires q % 4 == 0 && 4 * n < q
    ensures n * (4 * h) + 4 * h == (n + 1) * (4 * h) <= h * q && 4 * n + 4 <= q
  {
    MulMono(n + 1, q / 4, 4 * h);
    assert (q / 4) * (4 * h) == h * (4 * (q / 4));
  }

  lemma StepsWhole(q: nat, h: nat, n: nat)
    requires q == 4 * n
    ensures n * (4 * h) == h * q
  {
  }

  /** Four columns of one tile: its groups of eight rows in turn. */
  method LayoutColumns8x4(src: array<int>, buf: array<int>, j: Job, io: nat, ghost t: nat, ko: nat, ghost n: nat,
                          start: nat,
                          ghost target: seq<int>)
    returns (idx: nat)
    requires LayoutSizes(j) && j.p % 32 != 0 && src.Length == Area(j.p, j.q) && src != buf
    requires t < RowTiles(j) && io == 32 * t && ko == 4 * n && ko < j.q
    requires target == PanelLayout(j, src[..], j.p) && buf.Length == |target|
    requires start == ColumnStart(j, t, n) && start + 4 * TileRows(j, 32 * t) <= |target|
    requires buf[..start] == target[..start]
    modifies buf
    ensures idx == start + 4 * TileRows(j, 32 * t) && buf[..idx] == target[..idx]
  {
    hide PanelLayout, RowTiles, TileRows, TileStart, LayoutSizes, ColumnStart, Area;
    ghost var h := TileRows(j, 32 * t);
    GroupGuard(j, t, 0);
    idx := start;
    var ii := 0;
    ghost var b: nat := 0;
    while ii < REG_SIZE && io + ii < j.p
      invariant ii == 8 * b && 8 * b <= h && (8 * b < h <==> ii < REG_SIZE && io + ii < j.p)
      invariant 8 * b < h ==> 8 * b + 8 <= h
      invariant idx == start + 32 * b && buf[..idx] == target[..idx]
      decreases h - 8 * b
    {
      idx := LayoutBlock8x4(src, buf, j, io, t, ko, n, ii, b, idx, target);
      ii, b := ii + COMPUTE_WAY, b + 1;
      GroupGuard(j, t, b);
    }
  }

  lemma GroupGuard(j: Job, t: nat, b: nat)
    requires LayoutSizes(j) && t < RowTiles(j) && (b > 0 ==> 8 * (b - 1) < TileRows(j, 32 * t))
    ensures 8 * b <= TileRows(j, 32 * t) && (8 * b < TileRows(j, 32 * t) <==> 8 * b < 32 && 32 * t + 8 * b < j.p)
    ensures 8 * b < TileRows(j, 32 * t) ==> 8 * b + 8 <= TileRows(j, 32 * t)
  {
    TileRowsFacts(j, t);
  }

  /** One block of eight rows by four columns. */
  method LayoutBlock8x4(src: array<int>, buf: array<int>, j: Job, io: nat, ghost t: nat, ko: nat, ghost n: nat,
                        ii: nat, ghost b: nat,
                        start: nat, ghost target: seq<int>)
    returns (idx: nat)
    requires LayoutSizes(j) && j.p % 32 != 0 && src.Length == Area(j.p, j.q) && src != buf
    requires t < RowTiles(j) && io == 32 * t && ko == 4 * n && ko < j.q && ii == 8 * b && ii < TileRows(j, 32 * t)
    requires target == PanelLayout(j, src[..], j.p) && buf.Length == |target|
    requires start == ColumnStart(j, t, n) + 32 * b && start + 32 <= |target| && buf[..start] == target[..start]
    modifies buf
    ensures idx == start + 32 && buf[..idx] == target[..idx]
  {
    hide PanelLayout, RowTiles, TileRows, TileStart, LayoutSizes, ColumnStart, Flat, Area;
    ghost var s := src[..];
    idx := start;
    var ki := 0;
    while ki < REG_SIZE / COMPUTE_WAY
      invariant ki <= 4 && idx == start + 8 * ki && buf[..idx] == target[..idx] && src[..] == s
    {
      var iii := 0;
      while iii < COMPUTE_WAY
        invariant iii <= 8 && idx == start + 8 * ki + iii && buf[..idx] == target[..idx] && src[..] == s
      {
        Place8x4(j, s, t, n, b, ki, iii, io + ii + iii, ko + ki, idx);
        var v := Fetch(src, io + ii + iii, ko + ki, j.q);
        Put(buf, idx, v, target);
        idx, iii := idx + 1, iii + 1;
      }
      ki := ki + 1;
    }
  }

  lemma BlockInTile(j: Job, t: nat, n: nat, b: nat, ki: nat, iii: nat)
    requires LayoutSizes(j) && j.p % 32 != 0 && t < RowTiles(j) && 4 * n < j.q && 8 * b < TileRows(j, 32 * t) &&
      ki < 4 && iii < 8
    ensures 8 * b + iii < TileRows(j, 32 * t) <= 32 && 4 * n + ki < j.q
  {
    TileRowsFacts(j, t);
    QuarterSteps(j);
    hide *;
    Below(TileRows(j, 32 * t), b, iii);
    BelowQuarter(j.q, n, ki);
  }

  lemma Below(h: nat, b: nat, iii: nat)
    requires h % 8 == 0 && 8 * b < h && iii < 8
    ensures 8 * b + iii < h
  {
  }

  lemma BelowQuarter(q: nat, n: nat, ki: nat)
    requires q % 4 == 0 && 4 * n < q && ki < 4
    ensures 4 * n + ki < q
  {
  }

  lemma Place8x4(j: Job, src: seq<int>, t: nat, n: nat, b: nat, ki: nat, iii: nat, i: nat, k: nat, d: nat)
    requires LayoutSizes(j) && j.p % 32 != 0 && t < RowTiles(j) && |src| == Area(j.p, j.q)
    requires 4 * n < j.q && 8 * b < TileRows(j, 32 * t) && ki < 4 && iii < 8
    requires i == 32 * t + 8 * b + iii && k == 4 * n + ki
    requires d == ColumnStart(j, t, n) + 32 * b + 8 * ki + iii
    ensures d < |PanelLayout(j, src, j.p)| && 0 <= Flat(i, k, j.q) < |src|
    ensures PanelLayout(j, src, j.p)[d] == src[Flat(i, k, j.q)]
  {
    hide *;
    BlockInTile(j, t, n, b, ki, iii);
    PanelAddr8x4(j, t, n, b, ki, iii);
    RowBelow(j, t, 8 * b + iii);
    PlaceAt(j, src, j.p, t, 8 * b + iii, k, d);
  }

  lemma RowBelow(j: Job, t: nat, row: nat)
    requires LayoutSizes(j) && t < RowTiles(j) && row < TileRows(j, 32 * t)
    ensures 32 * t + row < j.p
  {
    TileRowsFacts(j, t);
  }

  lemma PanelAddr8x4(j: Job, t: nat, n: nat, b: nat, ki: nat, iii: nat)
    requires LayoutSizes(j) && j.p % 32 != 0 && t < RowTiles(j) && 8 * b < 32 && ki < 4 && iii < 8
    ensures PanelAddr(j, 32 * t + (8 * b + iii), 4 * n + ki) == ColumnStart(j, t, n) + 32 * b + 8 * ki + iii
  {
    TileStartStep(j, t);
    hide TileRows, TileStart, RowTiles, LayoutSizes;
    GroupSplit(t, b, iii);
    QuarterSplit(n, ki);
    assert t * (32 * j.q) == 32 * t * j.q;
  }

  lemma GroupSplit(t: nat, b: nat, iii: nat)
    requires 8 * b < 32 && iii < 8
    ensures (32 * t + (8 * b + iii)) / 32 == t && (32 * t + (8 * b + iii)) % 32 == 8 * b + iii
    ensures (8 * b + iii) / 8 == b && (8 * b + iii) % 8 == iii
  {
  }

  lemma QuarterSplit(n: nat, ki: nat)
    requires ki < 4
    ensures (4 * n + ki) / 4 == n && (4 * n + ki) % 4 == ki
  {
  }
}
