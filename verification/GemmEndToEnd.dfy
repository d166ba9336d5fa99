/**
 A whole `gemm` job, from the host's matrices to the host's result: prepare the buffers, execute the
 chain, read the result back. The reference is the host's own triple loop, `gemm_CPU`.
 */
module GemmEndToEnd {
  import opened Arith
  import opened Sums
  import opened Machine
  import opened DescMem
  import opened MatmulChains
  import opened MatmulResults
  import MatmulExact
  import opened Triples
  import opened Gemm
  import opened GemmResults
  import opened GemmHost

  /** A row-major buffer as a matrix. */
  function Rows(s: seq<int>, cols: nat): Matrix {
    (i: int, k: int) => At(s, i * cols + k)
  }

  function CpuAt(srcA: seq<int>, srcB: seq<int>, bias: seq<int>, q: nat, r: nat, i: nat, c: nat): int {
    Dot(Rows(srcA, q), Rows(srcB, r), i, c, q) + At(bias, i * r + c)
  }

  /** A times B plus bias, row-major. */
  function CpuResult(srcA: seq<int>, srcB: seq<int>, bias: seq<int>, p: nat, q: nat, r: nat): (s: seq<int>)
    ensures |s| == p * r
  {
    seq(p * r, d requires 0 <= d < p * r => if r == 0 then 0 else CpuAt(srcA, srcB, bias, q, r, d / r, d % r))
  }

  lemma CpuCell(srcA: seq<int>, srcB: seq<int>, bias: seq<int>, p: nat, q: nat, r: nat, i: nat, c: nat)
    requires i < p && c < r
    ensures i * r + c < |CpuResult(srcA, srcB, bias, p, q, r)|
    ensures CpuResult(srcA, srcB, bias, p, q, r)[i * r + c] == CpuAt(srcA, srcB, bias, q, r, i, c)
  {
    DivMod(i, c, r);
    RowMajorBound(i, p, c, r);
  }

  /** The host's reference loop. */
  method GemmCpu(srcA: array<int>, srcB: array<int>, bias: array<int>, dst: array<int>, p: nat, q: nat, r: nat)
    requires srcA.Length == p * q && srcB.Length == q * r && bias.Length == dst.Length == p * r
    requires dst != srcA && dst != srcB && dst != bias
    modifies dst
    ensures dst[..] == CpuResult(srcA[..], srcB[..], bias[..], p, q, r)
  {
    hide CpuResult;
    ghost var d, target := 0, CpuResult(srcA[..], srcB[..], bias[..], p, q, r);
    var c_r := 0;
    while c_r < p
      invariant c_r <= p && d == c_r * r <= |target| && dst[..d] == target[..d]
    {
      var c_c := 0;
      while c_c < r
        invariant c_c <= r && d == c_r * r + c_c <= |target| && dst[..d] == target[..d]
      {
        CpuCell(srcA[..], srcB[..], bias[..], p, q, r, c_r, c_c);
        var tmp := CpuDot(srcA, srcB, p, q, r, c_r, c_c);
        dst[c_c + c_r * r] := tmp + bias[c_c + c_r * r];
        PrefixStep(dst[..], target, d);
        c_c, d := c_c + 1, d + 1;
      }
      c_r := c_r + 1;
    }
    assert dst[..] == target;
  }

  /** The innermost loop of the reference. */
  method CpuDot(srcA: array<int>, srcB: array<int>, p: nat, q: nat, r: nat, c_r: nat, c_c: nat) returns (tmp: int)
    requires srcA.Length == p * q && srcB.Length == q * r && c_r < p && c_c < r
    ensures tmp == Dot(Rows(srcA[..], q), Rows(srcB[..], r), c_r, c_c, q)
  {
    tmp := 0;
    var k := 0;
    while k < q
      invariant k <= q && tmp == Dot(Rows(srcA[..], q), Rows(srcB[..], r), c_r, c_c, k)
    {
      RowMajorBound(c_r, p, k, q);
      RowMajorBound(k, q, c_c, r);
      tmp := tmp + srcA[k + c_r * q] * srcB[k * r + c_c];
      k := k + 1;
    }
  }

  // ----- the job

  ghost predicate Loaded(m: Dram, base: int, s: seq<int>) {
    forall d {:trigger s[d]} :: 0 <= d < |s| ==> m(base + d) == s[d]
  }

  /** The job the host submits for matrices of p by q and q by r: the driver sees r padded. */
  ghost predicate HostJob(pf: Platform, j: Job, r: nat) {
    r > 0 && j.r == PadSize(r) && GemmBuffers(pf, j)
  }

  ghost predicate HostInput(j: Job, r: nat, srcA: seq<int>, srcB: seq<int>, bias: seq<int>) {
    |srcA| == j.p * j.q && |srcB| == j.q * r && |bias| == j.p * r
  }

  /** The three source buffers hold what the host prepared; the device is idle. */
  ghost predicate HostLoaded(pf: Platform, j: Job, r: nat, srcA: seq<int>, srcB: seq<int>, bias: seq<int>, st: State) {
    && Loaded(st.dram, pf.DevAddr(j.srcA) / 2, srcA)
    && Loaded(st.dram, pf.DevAddr(j.srcB) / 2, MatB(srcB, j.q, r))
    && Loaded(st.dram, pf.DevAddr(j.bias) / 2, MatBias(bias, j.p, r))
    && st.acc == ZeroAcc()
  }

  /** What the host reads back: the C buffer, without its padding columns. */
  function HostResult(pf: Platform, j: Job, r: nat, m: Dram): seq<int> {
    UnpaddedMatrix(Read(m, pf.DevAddr(j.dstC) / 2, j.p * j.r), j.p, r, j.r)
  }

  ghost predicate HostRight(pf: Platform, j: Job, r: nat, srcA: seq<int>, srcB: seq<int>, bias: seq<int>, st: State) {
    HostResult(pf, j, r, Exec(pf, GemmChain(pf, j, OPCODE_MAT_MUL), st).dram) ==
      CpuResult(srcA, srcB, bias, j.p, j.q, r)
  }

  /** The column counts for which the host hands over B in the form the chain expects. */
  predicate HostColumns(r: nat) {
    r == 512 || (r > 512 && r % 512 != 0)
  }

  // ----- the buffers as the chain sees them

  lemma LoadedA(pf: Platform, j: Job, srcA: seq<int>, m: Dram, i: nat, k: nat)
    requires |srcA| == j.p * j.q && Loaded(m, pf.DevAddr(j.srcA) / 2, srcA) && i < j.p && k < j.q
    ensures MemA(m, pf, j)(i, k) == Rows(srcA, j.q)(i, k)
  {
    RowMajorBound(i, j.p, k, j.q);
    assert m(pf.DevAddr(j.srcA) / 2 + (i * j.q + k)) == srcA[i * j.q + k];
  }

  /** Flat position of element (k, c) in a matrix of q rows stored as column chunks of 512. */
  function ChunkPos(q: nat, k: nat, c: nat): nat { ((c / 512) * q + k) * 512 + c % 512 }

  /** Element (k, c) of B is at its chunked position in the buffer handed over, with zeros in the padding. */
  lemma MatBAt(srcB: seq<int>, q: nat, r: nat, k: nat, c: nat)
    requires |srcB| == q * r && r > 0 && k < q && c < PadSize(r)
    ensures ChunkPos(q, k, c) < |MatB(srcB, q, r)|
    ensures HostColumns(r) ==> At(MatB(srcB, q, r), ChunkPos(q, k, c)) == if c < r then At(srcB, k * r + c) else 0
  {
    PadSizeFacts(r);
    MatBLength(srcB, q, r);
    ChunkInside(q, PadSize(r), k, c);
    hide MatB, PadSize, ChunkPos;
    if r == 512 {
      MatBExact(srcB, q, k, c);
    } else if HostColumns(r) {
      MatBAligned(srcB, q, r);
      AlignedAt(srcB, q, r, PadSize(r), k, c);
    }
  }

  lemma ChunkInside(q: nat, rpad: nat, k: nat, c: nat)
    requires k < q && c < rpad && rpad % 512 == 0
    ensures ChunkPos(q, k, c) < q * rpad
  {
    AlignIndex(q, rpad, c / 512, k, c % 512);
  }

  lemma MatBLength(srcB: seq<int>, q: nat, r: nat)
    requires |srcB| == q * r
    ensures |MatB(srcB, q, r)| == q * PadSize(r)
  {
  }

  /** A B of 512 columns is handed over as it is. */
  lemma MatBExact(srcB: seq<int>, q: nat, k: nat, c: nat)
    requires |srcB| == q * 512 && k < q && c < PadSize(512)
    ensures c < 512 && At(MatB(srcB, q, 512), ChunkPos(q, k, c)) == At(srcB, k * 512 + c)
  {
    assert c / 512 == 0 && c % 512 == c;
  }

  lemma MatBAligned(srcB: seq<int>, q: nat, r: nat)
    requires |srcB| == q * r && HostColumns(r) && r != 512
    ensures MatB(srcB, q, r) == AlignedMatrix(PaddedMatrix(srcB, q, r, PadSize(r)), q, PadSize(r))
  {
  }

  lemma AlignedAt(srcB: seq<int>, q: nat, r: nat, rpad: nat, k: nat, c: nat)
    requires |srcB| == q * r && k < q && c < rpad && rpad % 512 == 0
    ensures ChunkPos(q, k, c) < q * rpad
    ensures AlignedMatrix(PaddedMatrix(srcB, q, r, rpad), q, rpad)[ChunkPos(q, k, c)] ==
      if c < r then At(srcB, k * r + c) else 0
  {
    hide *;
    ChunkSource(q, rpad, k, c);
    AlignedCell(PaddedMatrix(srcB, q, r, rpad), q, rpad, ChunkPos(q, k, c));
    PaddedAt(srcB, q, r, rpad, k, c);
  }

  lemma PaddedAt(srcB: seq<int>, q: nat, r: nat, rpad: nat, k: nat, c: nat)
    requires |srcB| == q * r && k < q && c < rpad
    ensures At(PaddedMatrix(srcB, q, r, rpad), k * rpad + c) == if c < r then At(srcB, k * r + c) else 0
  {
    hide PaddedMatrix;
    PaddedCell(srcB, q, r, rpad, k, c);
    RowMajorBound(k, q, c, rpad);
    if c < r {
      RowMajorBound(k, q, c, r);
    }
  }

  lemma AlignedCell(padded: seq<int>, q: nat, rpad: nat, d: nat)
    requires d < q * rpad
    ensures AlignedMatrix(padded, q, rpad)[d] == At(padded, AlignSource(q, rpad, d))
  {
    hide AlignSource;
  }

  lemma ChunkSource(q: nat, rpad: nat, k: nat, c: nat)
    requires k < q && c < rpad && rpad % 512 == 0
    ensures ChunkPos(q, k, c) < q * rpad && AlignSource(q, rpad, ChunkPos(q, k, c)) == k * rpad + c
  {
    hide AlignSource;
    AlignIndex(q, rpad, c / 512, k, c % 512);
    assert 512 * (c / 512) + c % 512 == c;
  }

  lemma LoadedB(pf: Platform, j: Job, r: nat, srcB: seq<int>, m: Dram, k: nat, c: nat)
    requires |srcB| == j.q * r && r > 0 && j.r == PadSize(r) && k < j.q && c < r && HostColumns(r)
    requires Loaded(m, pf.DevAddr(j.srcB) / 2, MatB(srcB, j.q, r))
    ensures MemB(m, pf, j)(k, c) == Rows(srcB, r)(k, c)
  {
    hide MatB, PadSize, HostColumns;
    PadSizeFacts(r);
    MatBAt(srcB, j.q, r, k, c);
    var d := ChunkPos(j.q, k, c);
    assert m(pf.DevAddr(j.srcB) / 2 + d) == MatB(srcB, j.q, r)[d];
  }

  lemma LoadedBias(pf: Platform, j: Job, r: nat, bias: seq<int>, m: Dram, i: nat, c: nat)
    requires |bias| == j.p * r && r > 0 && j.r == PadSize(r) && i < j.p && c < r
    requires Loaded(m, pf.DevAddr(j.bias) / 2, MatBias(bias, j.p, r))
    ensures m(pf.DevAddr(j.bias) / 2 + CellAddr(j, i, c)) == At(bias, i * r + c)
  {
    hide PaddedMatrix;
    PadSizeFacts(r);
    RowMajorBound(i, j.p, c, r);
    PaddedCell(bias, j.p, r, j.r, i, c);
    assert m(pf.DevAddr(j.bias) / 2 + (i * j.r + c)) == MatBias(bias, j.p, r)[i * j.r + c];
  }

  /** Element (i, c) of what the host reads back. */
  lemma ReadBack(pf: Platform, j: Job, r: nat, m: Dram, i: nat, c: nat)
    requires r > 0 && j.r == PadSize(r) && i < j.p && c < r
    ensures i * r + c < |HostResult(pf, j, r, m)| == j.p * r
    ensures HostResult(pf, j, r, m)[i * r + c] == m(pf.DevAddr(j.dstC) / 2 + CellAddr(j, i, c))
  {
    hide UnpaddedMatrix, PadSize;
    PadSizeFacts(r);
    UnpaddedCell(Read(m, pf.DevAddr(j.dstC) / 2, j.p * j.r), j.p, r, j.r, i, c);
  }

  lemma HostElement(pf: Platform, j: Job, r: nat, srcA: seq<int>, srcB: seq<int>, bias: seq<int>, m: Dram, m': Dram,
                    i: nat, c: nat)
    requires r > 0 && j.r == PadSize(r) && HostInput(j, r, srcA, srcB, bias) && HostColumns(r)
    requires Loaded(m, pf.DevAddr(j.srcA) / 2, srcA) && Loaded(m, pf.DevAddr(j.srcB) / 2, MatB(srcB, j.q, r))
    requires Loaded(m, pf.DevAddr(j.bias) / 2, MatBias(bias, j.p, r))
    requires GemmInC(pf, j, j.q, m, m')
    requires i < j.p && c < r
    ensures m'(pf.DevAddr(j.dstC) / 2 + CellAddr(j, i, c)) == CpuAt(srcA, srcB, bias, j.q, r, i, c)
  {
    hide Loaded, MatB, MatBias, HostColumns, PadSize, Dot, MemA, MemB, Rows, CellAddr;
    PadSizeFacts(r);
    forall k: nat | k < j.q
      ensures MemA(m, pf, j)(i, k) == Rows(srcA, j.q)(i, k) && MemB(m, pf, j)(k, c) == Rows(srcB, r)(k, c)
    {
      LoadedA(pf, j, srcA, m, i, k);
      LoadedB(pf, j, r, srcB, m, k, c);
    }
    DotExt(MemA(m, pf, j), MemB(m, pf, j), i, c, Rows(srcA, j.q), Rows(srcB, r), i, c, j.q);
    LoadedBias(pf, j, r, bias, m, i, c);
  }

  /** Padding, aligning, the chain and unpadding together compute what the host's reference loop computes. */
  lemma GemmHostCorrect(pf: Platform, j: Job, r: nat, srcA: seq<int>, srcB: seq<int>, bias: seq<int>, st: State)
    requires HostJob(pf, j, r) && HostInput(j, r, srcA, srcB, bias) && HostLoaded(pf, j, r, srcA, srcB, bias, st)
    requires j.q % 32 == 0 && HostColumns(r)
    ensures HostRight(pf, j, r, srcA, srcB, bias, st)
  {
    hide GemmBuffers, PadSize, HostColumns, Loaded, MatB, MatBias, GemmInC, Exec, GemmChain, HostResult, CpuResult;
    PadSizeFacts(r);
    GemmCorrect(pf, j, st);
    var m' := Exec(pf, GemmChain(pf, j, OPCODE_MAT_MUL), st).dram;
    var x, y := HostResult(pf, j, r, m'), CpuResult(srcA, srcB, bias, j.p, j.q, r);
    ResultLength(pf, j, r, m');
    forall d | 0 <= d < j.p * r ensures x[d] == y[d] {
      var i, c := RowAndCol(d, j.p, r);
      ReadBack(pf, j, r, m', i, c);
      CpuCell(srcA, srcB, bias, j.p, j.q, r, i, c);
      HostElement(pf, j, r, srcA, srcB, bias, st.dram, m', i, c);
    }
    assert x == y;
  }

  lemma ResultLength(pf: Platform, j: Job, r: nat, m: Dram)
    ensures |HostResult(pf, j, r, m)| == j.p * r
  {
  }

  // ----- the other column counts

  /** A buffer of n zeros with a one at index t. */
  function Unit(n: nat, t: nat): (s: seq<int>)
    ensures |s| == n
  {
    seq(n, d => if d == t then 1 else 0)
  }

  /** A DRAM holding three buffers. */
  function Holding(a: int, sa: seq<int>, b: int, sb: seq<int>, c: int, sc: seq<int>): Dram {
    x => if a <= x < a + |sa| then sa[x - a]
         else if b <= x < b + |sb| then sb[x - b]
         else if c <= x < c + |sc| then sc[x - c] else 0
  }

  /** The source buffers are apart, with the slack the chain may read past A and B. */
  ghost predicate SourcesApart(pf: Platform, j: Job) {
    && Separate(pf.DevAddr(j.srcA) / 2, ExtentA(j), pf.DevAddr(j.srcB) / 2, ExtentB(j))
    && Separate(pf.DevAddr(j.srcA) / 2, ExtentA(j), pf.DevAddr(j.bias) / 2, j.p * j.r)
    && Separate(pf.DevAddr(j.srcB) / 2, ExtentB(j), pf.DevAddr(j.bias) / 2, j.p * j.r)
  }

  lemma WholeChunks(j: Job)
    requires j.r % 512 == 0
    ensures j.r == 512 * ColChunks(j) && j.q * j.r == (ColChunks(j) * j.q) * 512 <= ExtentB(j) &&
      j.p * j.q <= ExtentA(j)
  {
    assert j.r == 512 * ColChunks(j);
    hide ColChunks;
    assert j.q * (512 * ColChunks(j)) == (ColChunks(j) * j.q) * 512;
  }

  lemma HoldingLoaded(pf: Platform, j: Job, sa: seq<int>, sb: seq<int>, sc: seq<int>)
    requires SourcesApart(pf, j) && j.r % 512 == 0 && |sa| == j.p * j.q && |sb| == j.q * j.r && |sc| == j.p * j.r
    ensures var m := Holding(pf.DevAddr(j.srcA) / 2, sa, pf.DevAddr(j.srcB) / 2, sb, pf.DevAddr(j.bias) / 2, sc);
      && Loaded(m, pf.DevAddr(j.srcA) / 2, sa) && Loaded(m, pf.DevAddr(j.srcB) / 2, sb)
      && Loaded(m, pf.DevAddr(j.bias) / 2, sc)
  {
    hide ExtentA, ExtentB;
    WholeChunks(j);
  }

  lemma BufferLengths(srcB: seq<int>, bias: seq<int>, p: nat, q: nat, r: nat)
    requires |srcB| == q * r && |bias| == p * r
    ensures |MatB(srcB, q, r)| == q * PadSize(r) && |MatBias(bias, p, r)| == p * PadSize(r)
  {
  }

  lemma UnitCell(n: nat, t: nat, d: nat)
    requires d < n
    ensures At(Unit(n, t), d) == if d == t then 1 else 0
  {
  }

  /** Element (0, 0) for A and B with a single one each, at (0, t) and (t, 0). */
  lemma UnitProduct(q: nat, r: nat, p: nat, t: nat)
    requires t < q && r > 0 && p > 0
    ensures CpuAt(Unit(p * q, t), Unit(q * r, t * r), Zeros(p * r), q, r, 0, 0) == 1
  {
    hide Unit, Zeros;
    var A, B := Rows(Unit(p * q, t), q), Rows(Unit(q * r, t * r), r);
    RowMajorBound(t, q, 0, r);
    forall k: nat {:trigger Product(A, B, 0, 0, k)} | k < q
      ensures Product(A, B, 0, 0, k) == if k == t then 1 else 0
    {
      RowMajorBound(0, p, k, q);
      UnitCell(p * q, t, 0 * q + k);
      UnitCell(q * r, t * r, t * r + 0);
    }
    DotOneTerm(A, B, 0, 0, t, q);
    ZeroAt(p * r, 0 * r + 0);
  }

  /** With a column count outside HostColumns, B reaches the device as zeros or in the wrong order. */
  lemma MisplacedB(q: nat, r: nat, t: nat)
    requires r > 0 && !HostColumns(r) && q >= 32
    requires t == if r < 512 then 0 else 1
    ensures t * 512 < |MatB(Unit(q * r, t * r), q, r)| && MatB(Unit(q * r, t * r), q, r)[t * 512] == 0
  {
    if r < 512 {
      assert q * PadSize(r) == q * 512;
    } else {
      assert r >= 1024;
      RowMajorBound(1, q, 0, r);
    }
  }

  lemma HostWrong(pf: Platform, j: Job, r: nat, srcA: seq<int>, srcB: seq<int>, bias: seq<int>, st: State, t: nat)
    requires HostJob(pf, j, r) && j.p > 0 && j.q > 0 && j.q % 32 == 0 && !HostColumns(r)
    requires t == if r < 512 then 0 else 1
    requires srcA == Unit(j.p * j.q, t) && srcB == Unit(j.q * r, t * r) && bias == Zeros(j.p * r)
    requires HostLoaded(pf, j, r, srcA, srcB, bias, st)
    ensures !HostRight(pf, j, r, srcA, srcB, bias, st)
  {
    hide GemmBuffers, PadSize, HostColumns, MatB, MatBias, Exec, GemmChain, HostResult, CpuResult, Dot, MemA, MemB,
         Unit, Zeros, Loaded;
    PadSizeFacts(r);
    GemmCorrect(pf, j, st);
    UnitProduct(j.q, r, j.p, t);
    WrongDot(pf, j, r, srcA, srcB, st.dram, t);
    LoadedBias(pf, j, r, bias, st.dram, 0, 0);
    assert At(bias, 0 * r + 0) == 0 by { ZeroAt(j.p * r, 0); }
    CellWrong(pf, j, r, srcA, srcB, bias, st, 0, 0);
  }

  lemma ZeroAt(n: nat, d: int)
    ensures At(Zeros(n), d) == 0
  {
  }

  lemma WrongDot(pf: Platform, j: Job, r: nat, srcA: seq<int>, srcB: seq<int>, m: Dram, t: nat)
    requires r > 0 && j.r == PadSize(r) && j.q % 32 == 0 && j.p > 0 && j.q > 0 && !HostColumns(r)
    requires t == if r < 512 then 0 else 1
    requires srcA == Unit(j.p * j.q, t) && srcB == Unit(j.q * r, t * r)
    requires Loaded(m, pf.DevAddr(j.srcA) / 2, srcA) && Loaded(m, pf.DevAddr(j.srcB) / 2, MatB(srcB, j.q, r))
    ensures Dot(MemA(m, pf, j), MemB(m, pf, j), 0, 0, j.q) == 0
  {
    MisplacedCell(pf, j, r, srcB, m, t);
    hide PadSize, HostColumns, MatB, Dot, MemA, MemB, Unit, Loaded;
    var A, B := MemA(m, pf, j), MemB(m, pf, j);
    forall k: nat {:trigger Product(A, B, 0, 0, k)} | k < j.q ensures Product(A, B, 0, 0, k) == 0 {
      LoadedA(pf, j, srcA, m, 0, k);
      RowMajorBound(0, j.p, k, j.q);
      UnitCell(j.p * j.q, t, 0 * j.q + k);
    }
    DotOneTerm(A, B, 0, 0, t, j.q);
  }

  lemma MisplacedCell(pf: Platform, j: Job, r: nat, srcB: seq<int>, m: Dram, t: nat)
    requires r > 0 && j.q >= 32 && !HostColumns(r) && t == if r < 512 then 0 else 1
    requires srcB == Unit(j.q * r, t * r) && Loaded(m, pf.DevAddr(j.srcB) / 2, MatB(srcB, j.q, r))
    ensures MemB(m, pf, j)(t, 0) == 0
  {
    hide PadSize, HostColumns, MatB, Unit;
    MisplacedB(j.q, r, t);
    assert m(pf.DevAddr(j.srcB) / 2 + t * 512) == MatB(srcB, j.q, r)[t * 512];
  }

  // ----- inner dimensions that are no multiple of 32

  /** Zero matrices reach the device as zeros. */
  lemma ZeroBuffers(p: nat, q: nat, r: nat)
    ensures MatB(Zeros(q * r), q, r) == Zeros(q * PadSize(r)) && MatBias(Zeros(p * r), p, r) == Zeros(p * PadSize(r))
  {
    hide AlignSource;
    var zb, zc := Zeros(q * r), Zeros(p * r);
    assert r % 512 != 0 ==> PaddedMatrix(zc, p, r, PadSize(r)) == Zeros(p * PadSize(r));
    assert r % 512 != 0 ==> AlignedMatrix(PaddedMatrix(zb, q, r, PadSize(r)), q, PadSize(r)) == Zeros(q * PadSize(r));
  }

  /** A DRAM that is zero but for a one just past A and a one just past B. */
  function StrayDram(pf: Platform, j: Job): Dram {
    MatmulExact.Ones(pf.DevAddr(j.srcA) / 2 + j.p * j.q, pf.DevAddr(j.srcB) / 2 + (ColChunks(j) * j.q) * 512)
  }

  lemma StrayZero(pf: Platform, j: Job)
    requires SourcesApart(pf, j) && j.r % 512 == 0 && j.q % 32 != 0
    ensures Loaded(StrayDram(pf, j), pf.DevAddr(j.srcA) / 2, Zeros(j.p * j.q))
    ensures Loaded(StrayDram(pf, j), pf.DevAddr(j.srcB) / 2, Zeros(j.q * j.r))
    ensures Loaded(StrayDram(pf, j), pf.DevAddr(j.bias) / 2, Zeros(j.p * j.r))
  {
    WholeChunks(j);
    PaddedQBound(j);
    hide ColChunks, PaddedQ;
  }

  lemma StrayLoaded(pf: Platform, j: Job, r: nat, st: State)
    requires HostJob(pf, j, r) && SourcesApart(pf, j) && j.q % 32 != 0 && st.acc == ZeroAcc() &&
      st.dram == StrayDram(pf, j)
    ensures HostInput(j, r, Zeros(j.p * j.q), Zeros(j.q * r), Zeros(j.p * r))
    ensures HostLoaded(pf, j, r, Zeros(j.p * j.q), Zeros(j.q * r), Zeros(j.p * r), st)
  {
    hide GemmBuffers, SourcesApart, StrayDram, MatB, MatBias, PadSize, Zeros, Loaded;
    PadSizeFacts(r);
    StrayZero(pf, j);
    ZeroBuffers(j.p, j.q, r);
  }

  ghost predicate ZeroMatrices(j: Job, r: nat, srcA: seq<int>, srcB: seq<int>, bias: seq<int>) {
    srcA == Zeros(j.p * j.q) && srcB == Zeros(j.q * r) && bias == Zeros(j.p * r)
  }

  /** The reference computes zeros from zeros. */
  lemma ZeroCpu(j: Job, r: nat, srcA: seq<int>, srcB: seq<int>, bias: seq<int>, i: nat, c: nat)
    requires ZeroMatrices(j, r, srcA, srcB, bias)
    ensures CpuAt(srcA, srcB, bias, j.q, r, i, c) == 0
  {
    hide Zeros;
    var A, B := Rows(srcA, j.q), Rows(srcB, r);
    forall k: nat {:trigger Product(A, B, i, c, k)} | k < j.q ensures Product(A, B, i, c, k) == 0 {
      ZeroAt(j.p * j.q, i * j.q + k);
    }
    DotOneTerm(A, B, i, c, j.q, j.q);
    ZeroAt(j.p * r, i * r + c);
  }

  lemma StrayApart(pf: Platform, j: Job, r: nat)
    requires HostJob(pf, j, r) && SourcesApart(pf, j)
    ensures GemmBuffers(pf, j) && MatmulExact.AllApart(pf, j) && j.r % 512 == 0 && 512 <= j.r < r + 512
  {
    PadSizeFacts(r);
  }

  /** Element (i, c) of C after the job. */
  function Cell(pf: Platform, j: Job, st: State, i: nat, c: nat): int {
    Exec(pf, GemmChain(pf, j, OPCODE_MAT_MUL), st).dram(pf.DevAddr(j.dstC) / 2 + CellAddr(j, i, c))
  }

  /** For any q, element (i, c) of C is the dot product over whole loads plus bias. */
  lemma PaddedCellValue(pf: Platform, j: Job, st: State, i: nat, c: nat)
    requires GemmBuffers(pf, j) && j.r % 512 == 0 && st.acc == ZeroAcc() && i < j.p && c < j.r
    ensures Cell(pf, j, st, i, c) == Dot(MemA(st.dram, pf, j), MemB(st.dram, pf, j), i, c, PaddedQ(j)) +
      BiasCell(pf, j, st.dram, i, c)
  {
    hide GemmBuffers, Exec, GemmChain, Dot, MemA, MemB, PaddedQ, CellAddr;
    GemmPadded(pf, j, st);
  }

  function BiasCell(pf: Platform, j: Job, m: Dram, i: nat, c: nat): int {
    m(pf.DevAddr(j.bias) / 2 + CellAddr(j, i, c))
  }

  /** On the stray DRAM the last load and stream meet in one product: element (p - 1, c) of the last chunk is one. */
  lemma StrayCell(pf: Platform, j: Job, st: State, i: nat, c: nat)
    requires GemmBuffers(pf, j) && SourcesApart(pf, j) && MatmulExact.AllApart(pf, j) && j.r % 512 == 0 && j.q % 32 != 0
    requires j.p == i + 1 && j.r == c + 512 && st.acc == ZeroAcc() && st.dram == StrayDram(pf, j)
    ensures Cell(pf, j, st, i, c) == 1
  {
    PaddedQBound(j);
    StrayBias(pf, j, st.dram, i, c);
    StrayDot(pf, j, st.dram, i, c, PaddedQ(j));
    hide *;
    PaddedCellValue(pf, j, st, i, c);
  }

  lemma StrayDot(pf: Platform, j: Job, m: Dram, i: nat, c: nat, n: nat)
    requires MatmulExact.AllApart(pf, j) && j.r % 512 == 0 && j.q % 32 != 0 && j.q < n <= PaddedQ(j)
    requires j.p == i + 1 && j.r == c + 512 && m == StrayDram(pf, j)
    ensures Dot(MemA(m, pf, j), MemB(m, pf, j), i, c, n) == 1
  {
    hide MatmulExact.AllApart, Dot, MemA, MemB, ColChunks, MatmulExact.Ones;
    MatmulExact.StrayProduct(pf, j, m, n);
  }

  lemma StrayBias(pf: Platform, j: Job, m: Dram, i: nat, c: nat)
    requires SourcesApart(pf, j) && m == StrayDram(pf, j) && j.r % 512 == 0 && j.q % 32 != 0 && i < j.p && c < j.r
    ensures BiasCell(pf, j, m, i, c) == 0
  {
    hide SourcesApart, StrayDram;
    StrayZero(pf, j);
    RowMajorBound(i, j.p, c, j.r);
    assert Zeros(j.p * j.r)[CellAddr(j, i, c)] == 0;
  }

  lemma StrayWrong(pf: Platform, j: Job, r: nat, srcA: seq<int>, srcB: seq<int>, bias: seq<int>, st: State)
    requires HostJob(pf, j, r) && SourcesApart(pf, j) && j.p > 0 && j.q % 32 != 0
    requires ZeroMatrices(j, r, srcA, srcB, bias) && st.acc == ZeroAcc() && st.dram == StrayDram(pf, j)
    ensures !HostRight(pf, j, r, srcA, srcB, bias, st)
  {
    StrayApart(pf, j, r);
    JobWidth(pf, j, r);
    hide *;
    var i, c := j.p - 1, j.r - 512;
    StrayCell(pf, j, st, i, c);
    ZeroCpu(j, r, srcA, srcB, bias, i, c);
    CellWrong(pf, j, r, srcA, srcB, bias, st, i, c);
  }

  /** One element that differs from the reference makes the job wrong. */
  lemma CellWrong(pf: Platform, j: Job, r: nat, srcA: seq<int>, srcB: seq<int>, bias: seq<int>, st: State, i: nat,
                  c: nat)
    requires r > 0 && j.r == PadSize(r) && i < j.p && c < r
    requires Cell(pf, j, st, i, c) != CpuAt(srcA, srcB, bias, j.q, r, i, c)
    ensures !HostRight(pf, j, r, srcA, srcB, bias, st)
  {
    hide PadSize, Exec, GemmChain, HostResult, CpuResult, CpuAt, CellAddr;
    ReadBack(pf, j, r, Exec(pf, GemmChain(pf, j, OPCODE_MAT_MUL), st).dram, i, c);
    CpuCell(srcA, srcB, bias, j.p, j.q, r, i, c);
  }

  ghost predicate AlwaysRight(pf: Platform, j: Job, r: nat) {
    forall srcA: seq<int>, srcB: seq<int>, bias: seq<int>,
      st: State {:trigger HostRight(pf, j, r, srcA, srcB, bias, st)} ::
      HostInput(j, r, srcA, srcB, bias) && HostLoaded(pf, j, r, srcA, srcB, bias, st) ==>
        HostRight(pf, j, r, srcA, srcB, bias, st)
  }

  /** With q a multiple of 32 and another column count, a pair of unit matrices comes out wrong. */
  lemma UnitsWrong(pf: Platform, j: Job, r: nat)
    requires HostJob(pf, j, r) && SourcesApart(pf, j) && j.p > 0 && j.q > 0 && j.q % 32 == 0 && !HostColumns(r)
    ensures !AlwaysRight(pf, j, r)
  {
    hide HostJob, HostColumns, HostRight, SourcesApart, MatB, MatBias, Loaded, Unit, Zeros, PadSize, Holding;
    var t := if r < 512 then 0 else 1;
    var srcA, srcB, bias := Unit(j.p * j.q, t), Unit(j.q * r, t * r), Zeros(j.p * r);
    JobWidth(pf, j, r);
    BufferLengths(srcB, bias, j.p, j.q, r);
    HoldingLoaded(pf, j, srcA, MatB(srcB, j.q, r), MatBias(bias, j.p, r));
    var st := State(Holding(pf.DevAddr(j.srcA) / 2, srcA, pf.DevAddr(j.srcB) / 2, MatB(srcB, j.q, r),
                            pf.DevAddr(j.bias) / 2, MatBias(bias, j.p, r)), [], ZeroAcc(), false);
    HostWrong(pf, j, r, srcA, srcB, bias, st, t);
  }

  /**
   The host's result is right for all matrices exactly when q is a multiple of 32 and r is 512, or above 512
   and no multiple of it.
   */
  lemma GemmHostExact(pf: Platform, j: Job, r: nat)
    requires HostJob(pf, j, r) && SourcesApart(pf, j) && j.p > 0 && j.q > 0
    ensures j.q % 32 == 0 && HostColumns(r) <==> AlwaysRight(pf, j, r)
  {
    hide HostJob, HostColumns, HostInput, HostLoaded, HostRight, SourcesApart, Zeros, StrayDram;
    if j.q % 32 != 0 {
      var st := State(StrayDram(pf, j), [], ZeroAcc(), false);
      StrayLoaded(pf, j, r, st);
      StrayWrong(pf, j, r, Zeros(j.p * j.q), Zeros(j.q * r), Zeros(j.p * r), st);
    } else if HostColumns(r) {
      forall srcA: seq<int>, srcB: seq<int>, bias: seq<int>, st: State
        | HostInput(j, r, srcA, srcB, bias) && HostLoaded(pf, j, r, srcA, srcB, bias, st)
        ensures HostRight(pf, j, r, srcA, srcB, bias, st)
      {
        GemmHostCorrect(pf, j, r, srcA, srcB, bias, st);
      }
    } else {
      UnitsWrong(pf, j, r);
    }
  }

  lemma JobWidth(pf: Platform, j: Job, r: nat)
    requires HostJob(pf, j, r)
    ensures r > 0 && j.r == PadSize(r) && j.r % 512 == 0
  {
    PadSizeFacts(r);
  }
}
