/**
 The host jobs `elewise` and `bias_op`: matrices packed row after row without alignment, the chain, and the
 result compared with the host's own loops. Packing does not matter to `elewise`; to `bias_op` it does.
 */
module ElementwiseHost {
  import opened Arith
  import opened Machine
  import opened DescMem
  import opened Triples
  import opened Elementwise
  import opened ElementwiseResults
  import opened BiasResults
  import opened GemmHost
  import G = GemmEndToEnd

  // ----- elewise

  /** The reference loops `elewise_add_CPU`, `elewise_sub_CPU` and `elewise_mul_CPU`. */
  method EleAddCpu(srcA: array<int>, srcB: array<int>, dst: array<int>)
    requires srcA.Length == srcB.Length == dst.Length && dst != srcA && dst != srcB
    modifies dst
    ensures forall d {:trigger dst[d]} :: 0 <= d < dst.Length ==> dst[d] == srcA[d] + srcB[d]
  {
    var i := 0;
    while i < dst.Length
      invariant 0 <= i <= dst.Length && forall d {:trigger dst[d]} :: 0 <= d < i ==> dst[d] == srcA[d] + srcB[d]
    {
      dst[i] := srcA[i] + srcB[i];
      i := i + 1;
    }
  }

  method EleSubCpu(srcA: array<int>, srcB: array<int>, dst: array<int>)
    requires srcA.Length == srcB.Length == dst.Length && dst != srcA && dst != srcB
    modifies dst
    ensures forall d {:trigger dst[d]} :: 0 <= d < dst.Length ==> dst[d] == srcA[d] - srcB[d]
  {
    var i := 0;
    while i < dst.Length
      invariant 0 <= i <= dst.Length && forall d {:trigger dst[d]} :: 0 <= d < i ==> dst[d] == srcA[d] - srcB[d]
    {
      dst[i] := srcA[i] - srcB[i];
      i := i + 1;
    }
  }

  method EleMulCpu(srcA: array<int>, srcB: array<int>, dst: array<int>)
    requires srcA.Length == srcB.Length == dst.Length && dst != srcA && dst != srcB
    modifies dst
    ensures forall d {:trigger dst[d]} :: 0 <= d < dst.Length ==> dst[d] == srcA[d] * srcB[d]
  {
    var i := 0;
    while i < dst.Length
      invariant 0 <= i <= dst.Length && forall d {:trigger dst[d]} :: 0 <= d < i ==> dst[d] == srcA[d] * srcB[d]
    {
      dst[i] := srcA[i] * srcB[i];
      i := i + 1;
    }
  }

  /** C's extent is clear of the two packed matrices. */
  ghost predicate EleHostBuffers(pf: Platform, j: Job) {
    && EleEven(pf, j)
    && Separate(pf.DevAddr(j.dstC) / 2, EleExtent(j), pf.DevAddr(j.srcA) / 2, j.p * j.r)
    && Separate(pf.DevAddr(j.dstC) / 2, EleExtent(j), pf.DevAddr(j.srcB) / 2, j.p * j.r)
  }

  /** Every packed element comes out as the reference computes it, for all sizes. */
  lemma EleHostCorrect(pf: Platform, j: Job, opcode: nat, srcA: seq<int>, srcB: seq<int>, st: State)
    requires IsEle(opcode) && EleHostBuffers(pf, j) && |srcA| == |srcB| == j.p * j.r
    requires G.Loaded(st.dram, pf.DevAddr(j.srcA) / 2, srcA) && G.Loaded(st.dram, pf.DevAddr(j.srcB) / 2, srcB)
    ensures var m', c := Exec(pf, EleChain(pf, j, opcode), st).dram, pf.DevAddr(j.dstC) / 2;
      && (opcode == OPCODE_ELE_ADD ==>
        forall d {:trigger srcA[d]} :: 0 <= d < |srcA| ==> m'(c + d) == srcA[d] + srcB[d])
      && (opcode == OPCODE_ELE_SUB ==>
        forall d {:trigger srcA[d]} :: 0 <= d < |srcA| ==> m'(c + d) == srcA[d] - srcB[d])
      && (opcode == OPCODE_ELE_MUL ==>
        forall d {:trigger srcA[d]} :: 0 <= d < |srcA| ==> m'(c + d) == srcA[d] * srcB[d])
  {
    hide Exec, EleChain, EleOp, RowsExtent, EleElements;
    ElewiseElements(pf, j, opcode, st);
    RowsPast(j.p, j.r);
    var m' := Exec(pf, EleChain(pf, j, opcode), st).dram;
    forall d {:trigger srcA[d]} | 0 <= d < |srcA|
      ensures m'(pf.DevAddr(j.dstC) / 2 + d) == CpuOp(opcode, srcA[d], srcB[d])
    {
      PackedElement(pf, j, opcode, st.dram, m', d);
      CpuOpIs(opcode, srcA[d], srcB[d]);
    }
  }

  /** The operation of a reference loop. */
  function CpuOp(opcode: nat, x: int, y: int): int {
    if opcode == OPCODE_ELE_ADD then x + y
    else if opcode == OPCODE_ELE_SUB then x - y
    else x * y
  }

  /** The device computes what the reference loops compute. */
  lemma CpuOpIs(opcode: nat, x: int, y: int)
    requires IsEle(opcode)
    ensures EleOp(opcode, x, y) == CpuOp(opcode, x, y)
  {
  }

  lemma PackedElement(pf: Platform, j: Job, opcode: nat, m: Dram, m': Dram, d: nat)
    requires EleHostBuffers(pf, j) && EleElements(pf, j, opcode, m, m') && d < j.p * j.r <= EleExtent(j)
    ensures m'(pf.DevAddr(j.dstC) / 2 + d) ==
      EleOp(opcode, m(pf.DevAddr(j.srcA) / 2 + d), m(pf.DevAddr(j.srcB) / 2 + d))
  {
    hide EleOp, RowsExtent;
    var c := pf.DevAddr(j.dstC) / 2;
    assert !Outside(c, EleExtent(j), c + d);
  }

  // ----- bias_op

  /** The host's reference: the bias row combined with each packed row. */
  function BiasCpuResult(opcode: nat, bias: seq<int>, src: seq<int>): (s: seq<int>)
    ensures |s| == |src|
  {
    seq(|src|, d requires 0 <= d < |src| => if |bias| == 0 then 0 else CpuOp(opcode, bias[d % |bias|], src[d]))
  }

  /** The reference loops `bias_add_CPU`, `bias_sub_CPU` and `bias_mul_CPU`. */
  method BiasAddCpu(bias: array<int>, src: array<int>, dst: array<int>, q_size: nat, r_size: nat)
    requires bias.Length == r_size && src.Length == dst.Length == q_size * r_size && dst != bias && dst != src
    modifies dst
    ensures forall d {:trigger dst[d]} :: 0 <= d < dst.Length ==> r_size > 0 && dst[d] == bias[d % r_size] + src[d]
    ensures dst[..] == BiasCpuResult(OPCODE_ELE_ADD, bias[..], src[..])
  {
    var i := 0;
    while i < q_size * r_size
      invariant 0 <= i <= q_size * r_size
      invariant forall d {:trigger dst[d]} :: 0 <= d < i ==> r_size > 0 && dst[d] == bias[d % r_size] + src[d]
    {
      FlatSplit(i, q_size, r_size);
      dst[i] := bias[i % r_size] + src[i];
      i := i + 1;
    }
  }

  method BiasSubCpu(bias: array<int>, src: array<int>, dst: array<int>, q_size: nat, r_size: nat)
    requires bias.Length == r_size && src.Length == dst.Length == q_size * r_size && dst != bias && dst != src
    modifies dst
    ensures forall d {:trigger dst[d]} :: 0 <= d < dst.Length ==> r_size > 0 && dst[d] == bias[d % r_size] - src[d]
    ensures dst[..] == BiasCpuResult(OPCODE_ELE_SUB, bias[..], src[..])
  {
    var i := 0;
    while i < q_size * r_size
      invariant 0 <= i <= q_size * r_size
      invariant forall d {:trigger dst[d]} :: 0 <= d < i ==> r_size > 0 && dst[d] == bias[d % r_size] - src[d]
    {
      FlatSplit(i, q_size, r_size);
      dst[i] := bias[i % r_size] - src[i];
      i := i + 1;
    }
  }

  method BiasMulCpu(bias: array<int>, src: array<int>, dst: array<int>, q_size: nat, r_size: nat)
    requires bias.Length == r_size && src.Length == dst.Length == q_size * r_size && dst != bias && dst != src
    modifies dst
    ensures forall d {:trigger dst[d]} :: 0 <= d < dst.Length ==> r_size > 0 && dst[d] == bias[d % r_size] * src[d]
    ensures dst[..] == BiasCpuResult(OPCODE_ELE_MUL, bias[..], src[..])
  {
    var i := 0;
    while i < q_size * r_size
      invariant 0 <= i <= q_size * r_size
      invariant forall d {:trigger dst[d]} :: 0 <= d < i ==> r_size > 0 && dst[d] == bias[d % r_size] * src[d]
    {
      FlatSplit(i, q_size, r_size);
      dst[i] := bias[i % r_size] * src[i];
      i := i + 1;
    }
  }

  /** C's extent is clear of the bias values and of the packed rows of B. */
  ghost predicate BiasHostBuffers(pf: Platform, j: Job) {
    && pf.DevAddr(j.srcA) % 2 == pf.DevAddr(j.srcB) % 2 == pf.DevAddr(j.dstC) % 2 == 0
    && Separate(BufC(pf, j), BiasExtent(j), BufA(pf, j), j.r)
    && Separate(BufC(pf, j), BiasExtent(j), BufB(pf, j), j.q * j.r)
  }

  /** The chunks of bias values are apart from B and C too; only the counterexamples need it. */
  ghost predicate BiasHostApart(pf: Platform, j: Job) {
    && Separate(BufA(pf, j), 512 * Chunks(j.r), BufB(pf, j), j.q * j.r)
    && Separate(BufA(pf, j), 512 * Chunks(j.r), BufC(pf, j), BiasExtent(j))
  }

  /** The sources hold the packed matrices, and C is zeroed. */
  ghost predicate BiasHostLoaded(pf: Platform, j: Job, bias: seq<int>, src: seq<int>, m: Dram) {
    && |bias| == j.r && |src| == j.q * j.r
    && G.Loaded(m, BufA(pf, j), bias) && G.Loaded(m, BufB(pf, j), src)
    && G.Loaded(m, BufC(pf, j), Zeros(j.q * j.r))
  }

  ghost predicate BiasHostRight(pf: Platform, j: Job, opcode: nat, bias: seq<int>, src: seq<int>, st: State) {
    Read(Exec(pf, BiasChain(pf, j, opcode), st).dram, BufC(pf, j), |src|) == BiasCpuResult(opcode, bias, src)
  }

  /** Nothing to do; or no address offset, and one row or rows of whole loads that fill or fit a chunk. */
  predicate BiasHostFits(pf: Platform, j: Job) {
    j.q == 0 || j.r == 0 || (pf.paOffset == 0 && (j.q == 1 || (j.r % 32 == 0 && (j.r <= 512 || j.r % 512 == 0))))
  }

  // ----- sizes that fit

  lemma HostEven(pf: Platform, j: Job)
    requires BiasHostBuffers(pf, j) && pf.paOffset % 2 == 0
    ensures ChainEven(pf, j) && ChainC(pf, j) == BufC(pf, j) + pf.paOffset / 2
    ensures pf.paOffset == 0 ==> ChainA(pf, j) == BufA(pf, j) && ChainB(pf, j) == BufB(pf, j)
  {
    hide BiasExtent, Separate;
  }

  /** Where the packed index and the device's offset agree. */
  lemma PackedOffset(j: Job, i: nat, x: nat)
    requires i < j.q && x < j.r && (j.q == 1 || (j.r % 32 == 0 && (j.r <= 512 || j.r % 512 == 0)))
    ensures ElemOffset(j, i, x) == i * j.r + x < j.q * j.r && NoSpill(j)
  {
    RowMajorBound(i, j.q, x, j.r);
  }

  lemma BiasPacked(pf: Platform, j: Job, opcode: nat, m: Dram, m': Dram, i: nat, x: nat)
    requires BiasHostBuffers(pf, j) && BiasHostFits(pf, j) && PointwiseResult(opcode, BiasTris(pf, j), m, m')
    requires i < j.q && x < j.r
    ensures i * j.r + x < j.q * j.r
    ensures m'(BufC(pf, j) + (i * j.r + x)) == EleOp(opcode, m(BufA(pf, j) + x), m(BufB(pf, j) + (i * j.r + x)))
  {
    hide EleOp, BiasTris, PointwiseResult, BiasExtent, ElemOffset, NoSpill, ChainEven, ChainA, ChainB, ChainC, BufA,
         BufB,
         BufC;
    HostEven(pf, j);
    PackedOffset(j, i, x);
    BiasElement(pf, j, opcode, m, m', i, x);
  }

  lemma BiasHostCorrect(pf: Platform, j: Job, opcode: nat, bias: seq<int>, src: seq<int>, st: State)
    requires IsEle(opcode) && BiasHostBuffers(pf, j) && BiasHostFits(pf, j) && BiasHostLoaded(pf, j, bias, src, st.dram)
    ensures BiasHostRight(pf, j, opcode, bias, src, st)
  {
    hide *;
    BiasChainRun(pf, j, opcode, st);
    BiasHostRows(pf, j, opcode, bias, src, st);
  }

  lemma BiasHostRows(pf: Platform, j: Job, opcode: nat, bias: seq<int>, src: seq<int>, st: State)
    requires IsEle(opcode) && BiasHostBuffers(pf, j) && BiasHostFits(pf, j) && BiasHostLoaded(pf, j, bias, src, st.dram)
    requires PointwiseResult(opcode, BiasTris(pf, j), st.dram, Exec(pf, BiasChain(pf, j, opcode), st).dram)
    ensures BiasHostRight(pf, j, opcode, bias, src, st)
  {
    hide Exec, BiasChain, BiasTris, CpuOp, PointwiseResult, BiasHostBuffers, BiasHostFits, BiasHostLoaded, BufC;
    var m' := Exec(pf, BiasChain(pf, j, opcode), st).dram;
    var x, y := Read(m', BufC(pf, j), |src|), BiasCpuResult(opcode, bias, src);
    forall d | 0 <= d < |src| ensures x[d] == y[d] {
      BiasHostElement(pf, j, opcode, bias, src, st.dram, m', d);
    }
    assert x == y;
  }

  lemma BiasHostElement(pf: Platform, j: Job, opcode: nat, bias: seq<int>, src: seq<int>, m: Dram, m': Dram, d: nat)
    requires IsEle(opcode) && BiasHostBuffers(pf, j) && BiasHostFits(pf, j) && BiasHostLoaded(pf, j, bias, src, m)
    requires PointwiseResult(opcode, BiasTris(pf, j), m, m') && d < |src|
    ensures |bias| > 0 && m'(BufC(pf, j) + d) == CpuOp(opcode, bias[d % |bias|], src[d])
  {
    hide EleOp, CpuOp, BiasTris, PointwiseResult, BiasHostBuffers, BiasHostFits, BufA, BufB, BufC;
    var i, x := RowAndCol(d, j.q, j.r);
    DivMod(i, x, j.r);
    BiasPacked(pf, j, opcode, m, m', i, x);
    CpuOpIs(opcode, bias[x], src[d]);
  }

  // ----- sizes that do not fit

  /** A DRAM, and a buffer, of zeros with at most two other values. */
  function Peaks(a: int, va: int, b: int, vb: int): Dram {
    x => if x == a then va else if x == b then vb else 0
  }

  function Peak(n: nat, t: nat, v: int): (s: seq<int>)
    ensures |s| == n
  {
    seq(n, d => if d == t then v else 0)
  }

  lemma PeaksLoaded(pf: Platform, j: Job, va: int, t: nat, vb: int)
    requires BiasHostBuffers(pf, j) && BiasHostApart(pf, j) && j.q > 0 && j.r > 0 && t < j.q * j.r
    ensures BiasHostLoaded(pf, j, Peak(j.r, 0, va), Peak(j.q * j.r, t, vb), Peaks(BufA(pf, j), va, BufB(pf, j) + t, vb))
  {
    AlignedBound(j.r);
    RowsPast(j.q, j.r);
    hide Aligned, Chunks, RowsExtent, BufA, BufB, BufC;
  }

  /** An element that differs from the reference makes the job wrong. */
  lemma BiasHostWrong(pf: Platform, j: Job, opcode: nat, bias: seq<int>, src: seq<int>, st: State, d: nat)
    requires IsEle(opcode) && |bias| > 0 && d < |src|
    requires Exec(pf, BiasChain(pf, j, opcode), st).dram(BufC(pf, j) + d) != EleOp(opcode, bias[d % |bias|], src[d])
    ensures !BiasHostRight(pf, j, opcode, bias, src, st)
  {
    hide Exec, BiasChain, EleOp, CpuOp, BufC;
    CpuOpIs(opcode, bias[d % |bias|], src[d]);
    var x, y := Read(Exec(pf, BiasChain(pf, j, opcode), st).dram, BufC(pf, j), |src|), BiasCpuResult(opcode, bias, src);
    assert x[d] != y[d];
  }

  /** With an address offset element 0 stays zero. */
  lemma HostOffsetWrong(pf: Platform, j: Job, opcode: nat, st: State)
    requires IsEle(opcode) && BiasHostBuffers(pf, j) && BiasHostApart(pf, j) && j.q > 0 && j.r > 0
    requires pf.paOffset > 0 && pf.paOffset % 2 == 0 && st.dram == Peaks(BufA(pf, j), 2, BufB(pf, j) + 0, 1)
    ensures j.q * j.r > 0 && !BiasHostRight(pf, j, opcode, Peak(j.r, 0, 2), Peak(j.q * j.r, 0, 1), st)
  {
    hide Exec, TripleChain, BiasTris, EleOp, PointwiseResult, BiasHostBuffers, BiasHostApart, BiasExtent;
    hide ChainEven, ChainC, BufA, BufB, BufC, BiasHostRight;
    MulMono(1, j.q, j.r);
    HostEven(pf, j);
    PeaksLoaded(pf, j, 2, 0, 1);
    EleRun(pf, opcode, BiasTris(pf, j), st);
    var m' := Exec(pf, BiasChain(pf, j, opcode), st).dram;
    BiasFrame(pf, j, opcode, st.dram, m', BufC(pf, j));
    assert Zeros(j.q * j.r)[0] == 0;
    assert EleOp(opcode, 2, 1) != 0 by { NotZero(opcode); }
    BiasHostWrong(pf, j, opcode, Peak(j.r, 0, 2), Peak(j.q * j.r, 0, 1), st, 0);
  }

  lemma NotZero(opcode: nat)
    ensures EleOp(opcode, 2, 1) != 0
  {
  }

  /** Packed index r, the start of row 1, belongs to the last chunk of row 0. */
  lemma TailWriter(pf: Platform, j: Job)
    requires ChainEven(pf, j) && j.q > 1 && j.r % 512 != 0 && (j.r % 32 != 0 || j.r > 512)
    ensures j.r / 512 < Chunks(j.r) && ElemOffset(j, 0, j.r) == j.r
    ensures LastWriter(BiasTris(pf, j), ChainC(pf, j) + j.r) == TriNo(j, j.r / 512, 0)
  {
    hide BiasTris, BiasTri, Chunks, Aligned, BiasExtent, ChainA, ChainB, ChainC, ChainEven;
    AlignedBound(j.r);
    TailSizes(j.r);
    var ts, y, I: nat := BiasTris(pf, j), ChainC(pf, j) + j.r, j.r / 512;
    ChunkStep(j.r, I);
    BiasTriAt(pf, j, I, 0);
    BiasTriElems(pf, j, I, 0);
    assert Covers(ts[I * j.q], y);
    forall k {:trigger ts[k]} | I * j.q < k < |ts| ensures !Covers(ts[k], y) {
      var i, q := BiasTriSplit(pf, j, k);
      BiasTriElems(pf, j, i, q);
      LaterChunk(j.r, Aligned(j.r), j.q, I, i, q, k);
    }
    LastWriterIs(ts, y, I * j.q);
  }

  lemma TailSizes(r: nat)
    requires r % 512 != 0 && (r % 32 != 0 || r > 512)
    ensures Aligned(r) + 512 * (r / 512) > r && 512 * (r / 512) < r < 512 * (r / 512) + 512
  {
  }

  /** No chunk after chunk I of row 0 reaches back to column r of row 0. */
  lemma LaterChunk(r: nat, ra: nat, Q: nat, I: nat, i: nat, q: nat, k: nat)
    requires k == i * Q + q && q < Q && k > I * Q && ra >= r && ra + 512 * I > r && 512 * I + 512 > r
    ensures q * ra + 512 * i > r
  {
    if i < I {
      RowMajorBound(i, I, q, Q);
    } else if q > 0 {
      MulMono(1, q, ra);
    }
  }

  /** The chunk reads behind the bias values there. */
  lemma HostTailWrong(pf: Platform, j: Job, opcode: nat, st: State)
    requires IsEle(opcode) && BiasHostBuffers(pf, j) && BiasHostApart(pf, j) && pf.paOffset == 0
    requires j.q > 1 && j.r % 512 != 0 && (j.r % 32 != 0 || j.r > 512)
    requires st.dram == Peaks(BufA(pf, j), 1, BufB(pf, j) + j.r, 1)
    ensures !BiasHostRight(pf, j, opcode, Peak(j.r, 0, 1), Peak(j.q * j.r, j.r, 1), st)
  {
    hide *;
    HostEven(pf, j);
    TailWriter(pf, j);
    TailReads(pf, j, st.dram);
    BiasChainRun(pf, j, opcode, st);
    var m' := Exec(pf, BiasChain(pf, j, opcode), st).dram;
    BiasValue(pf, j, opcode, st.dram, m', j.r / 512, 0, j.r, j.r);
    TailReference(j);
    OpsDiffer(opcode);
    BiasHostWrong(pf, j, opcode, Peak(j.r, 0, 1), Peak(j.q * j.r, j.r, 1), st, j.r);
  }

  lemma BiasChainRun(pf: Platform, j: Job, opcode: nat, st: State)
    requires IsEle(opcode)
    ensures PointwiseResult(opcode, BiasTris(pf, j), st.dram, Exec(pf, BiasChain(pf, j, opcode), st).dram)
  {
    hide Exec, TripleChain, BiasTris, PointwiseResult;
    EleRun(pf, opcode, BiasTris(pf, j), st);
  }

  lemma TailReads(pf: Platform, j: Job, m: Dram)
    requires BiasHostBuffers(pf, j) && BiasHostApart(pf, j) && j.q > 1 && j.r % 512 != 0
    requires m == Peaks(BufA(pf, j), 1, BufB(pf, j) + j.r, 1)
    ensures Outside(BufC(pf, j), BiasExtent(j), BufA(pf, j) + j.r)
    ensures Outside(BufC(pf, j), BiasExtent(j), BufB(pf, j) + j.r)
    ensures m(BufA(pf, j) + j.r) == 0 && m(BufB(pf, j) + j.r) == 1
  {
    AlignedBound(j.r);
    AlignedRest(j.r);
    MulMono(2, j.q, j.r);
    hide Aligned, Chunks, RowsExtent, BufA, BufB, BufC;
  }

  lemma TailReference(j: Job)
    requires j.q > 1 && j.r > 0
    ensures var bias, src := Peak(j.r, 0, 1), Peak(j.q * j.r, j.r, 1);
      |bias| > 0 && j.r < |src| && bias[j.r % |bias|] == 1 && src[j.r] == 1
  {
    MulMono(2, j.q, j.r);
    assert j.r % j.r == 0;
  }

  ghost predicate AlwaysRight(pf: Platform, j: Job, opcode: nat) {
    forall bias: seq<int>, src: seq<int>, st: State {:trigger BiasHostRight(pf, j, opcode, bias, src, st)} ::
      BiasHostLoaded(pf, j, bias, src, st.dram) ==> BiasHostRight(pf, j, opcode, bias, src, st)
  }

  /**
   The host's `bias_op` job agrees with its reference loop for all matrices exactly when there is nothing to do,
   or the platform has no address offset and there is one row, or rows of a multiple of 32 elements that are a
   multiple of 512 or at most 512.
   */
  lemma BiasHostExact(pf: Platform, j: Job, opcode: nat)
    requires IsEle(opcode) && BiasHostBuffers(pf, j) && BiasHostApart(pf, j) && pf.paOffset >= 0 && pf.paOffset % 2 == 0
    ensures BiasHostFits(pf, j) <==> AlwaysRight(pf, j, opcode)
  {
    hide BiasHostBuffers, BiasHostApart, BiasHostLoaded, BiasHostRight, Peaks, Peak, BufA, BufB;
    if BiasHostFits(pf, j) {
      forall bias: seq<int>, src: seq<int>, st: State | BiasHostLoaded(pf, j, bias, src, st.dram)
        ensures BiasHostRight(pf, j, opcode, bias, src, st)
      {
        BiasHostCorrect(pf, j, opcode, bias, src, st);
      }
    } else if pf.paOffset > 0 {
      MulMono(1, j.q, j.r);
      PeaksLoaded(pf, j, 2, 0, 1);
      HostOffsetWrong(pf, j, opcode, State(Peaks(BufA(pf, j), 2, BufB(pf, j) + 0, 1), [], [], false));
    } else {
      MulMono(2, j.q, j.r);
      PeaksLoaded(pf, j, 1, j.r, 1);
      HostTailWrong(pf, j, opcode, State(Peaks(BufA(pf, j), 1, BufB(pf, j) + j.r, 1), [], [], false));
    }
  }
}
