/** What the device computes when it executes the chain of `gemm`. */
module GemmResults {
  import opened Arith
  import opened Sums
  import opened Machine
  import opened DescMem
  import opened MatmulChains
  import opened MatmulResults
  import opened Triples
  import opened Elementwise
  import opened Gemm

  /** What the addition phase needs: C and the bias apart. */
  ghost predicate AddBuffers(pf: Platform, j: Job) {
    && pf.DevAddr(j.bias) % 2 == pf.DevAddr(j.dstC) % 2 == 0
    && Separate(pf.DevAddr(j.dstC) / 2, ExtentC(j), pf.DevAddr(j.bias) / 2, ExtentC(j))
  }

  ghost predicate GemmBuffers(pf: Platform, j: Job) {
    MatmulBuffers(pf, j) && AddBuffers(pf, j)
  }

  /** Whole chunks only: the two phases cut C into the same blocks. */
  lemma SameChunks(j: Job)
    requires j.r % 512 == 0
    ensures j.r == 512 * Chunks(j.r) && ColChunks(j) == Chunks(j.r)
  {
    var R := j.r / 512;
    ChunkStep(j.r, R);
    if R > 0 {
      ChunkStep(j.r, R - 1);
    }
  }

  lemma AddTriElems(pf: Platform, j: Job, n: nat)
    requires j.r % 512 == 0 && pf.DevAddr(j.bias) % 2 == pf.DevAddr(j.dstC) % 2 == 0
    requires n < |AddTris(pf, j)|
    ensures AddTris(pf, j)[n].a / 2 == pf.DevAddr(j.bias) / 2 + 512 * n
    ensures AddTris(pf, j)[n].b / 2 == AddTris(pf, j)[n].c / 2 == pf.DevAddr(j.dstC) / 2 + 512 * n
    ensures 512 * |AddTris(pf, j)| == ExtentC(j)
  {
    hide Chunks;
    SameChunks(j);
    var p, i := RowAndCol(n, j.p, Chunks(j.r));
    AddTriAt(pf, j, p, i);
    assert p * (512 * Chunks(j.r)) == 512 * (p * Chunks(j.r));
    assert j.p * (512 * Chunks(j.r)) == 512 * (j.p * Chunks(j.r));
  }

  lemma AddNoFeedback(pf: Platform, j: Job)
    requires AddBuffers(pf, j) && j.r % 512 == 0
    ensures NoFeedback(AddTris(pf, j))
  {
    hide AddTris, ExtentC;
    var ts := AddTris(pf, j);
    forall i, k | 0 <= i < k < |ts|
      ensures Apart(ts[i].c / TYPE_SIZE, ts[k].a / TYPE_SIZE, ACC_SIZE)
      ensures Apart(ts[i].c / TYPE_SIZE, ts[k].b / TYPE_SIZE, ACC_SIZE)
    {
      AddTriElems(pf, j, i);
      AddTriElems(pf, j, k);
    }
  }

  /** Each element of C is written by exactly one triple of the addition phase. */
  lemma AddedOnce(pf: Platform, j: Job, d: nat)
    requires AddBuffers(pf, j) && j.r % 512 == 0 && d < ExtentC(j)
    ensures var ts := AddTris(pf, j);
      && d / 512 < |ts| && LastWriter(ts, pf.DevAddr(j.dstC) / 2 + d) == d / 512
      && forall n {:trigger ts[n]} :: 0 <= n < |ts| ==> (Covers(ts[n], pf.DevAddr(j.dstC) / 2 + d) <==> n == d / 512)
  {
    hide AddTris, ExtentC;
    var ts := AddTris(pf, j);
    AddCount(pf, j);
    forall n {:trigger ts[n]} | 0 <= n < |ts|
      ensures Covers(ts[n], pf.DevAddr(j.dstC) / 2 + d) <==> n == d / 512
    {
      AddTriElems(pf, j, n);
    }
    LastWriterIs(ts, pf.DevAddr(j.dstC) / 2 + d, d / 512);
  }

  lemma AddCount(pf: Platform, j: Job)
    requires j.r % 512 == 0
    ensures 512 * |AddTris(pf, j)| == ExtentC(j)
  {
    SameChunks(j);
    assert j.p * (512 * Chunks(j.r)) == 512 * (j.p * Chunks(j.r));
  }

  /** The addition phase, element by element. */
  lemma AddElement(pf: Platform, j: Job, m: Dram, m': Dram, y: int)
    requires AddBuffers(pf, j) && j.r % 512 == 0
    requires LastWriterResult(OPCODE_ELE_ADD, AddTris(pf, j), m, m')
    ensures var c := pf.DevAddr(j.dstC) / 2;
      m'(y) == if c <= y < c + ExtentC(j) then m(pf.DevAddr(j.bias) / 2 + (y - c)) + m(y) else m(y)
  {
    hide AddTris, ExtentC, LastWriter;
    var ts, c := AddTris(pf, j), pf.DevAddr(j.dstC) / 2;
    if c <= y < c + ExtentC(j) {
      AddedOnce(pf, j, y - c);
      AddTriElems(pf, j, (y - c) / 512);
    } else {
      var n := LastWriter(ts, y);
      if n >= 0 {
        AddTriElems(pf, j, n);
        assert false;
      }
    }
  }

  /** C holds, row by row, the dot products over the first n terms plus the bias; the rest is untouched. */
  ghost predicate GemmInC(pf: Platform, j: Job, n: nat, m: Dram, m': Dram) {
    var c0, b0 := pf.DevAddr(j.dstC) / 2, pf.DevAddr(j.bias) / 2;
    && (forall i: nat, c: nat {:trigger CellAddr(j, i, c)} :: i < j.p && c < j.r ==>
          m'(c0 + CellAddr(j, i, c)) == Dot(MemA(m, pf, j), MemB(m, pf, j), i, c, n) + m(b0 + CellAddr(j, i, c)))
    && (forall y {:trigger m'(y)} :: !(c0 <= y < c0 + ExtentC(j)) ==> m'(y) == m(y))
  }

  lemma AddToProduct(pf: Platform, j: Job, n: nat, m: Dram, m1: Dram, m2: Dram)
    requires GemmBuffers(pf, j) && j.r % 512 == 0
    requires ProductInC(pf, j, n, m, m1) && LastWriterResult(OPCODE_ELE_ADD, AddTris(pf, j), m1, m2)
    ensures GemmInC(pf, j, n, m, m2)
  {
    hide AddTris, LastWriterResult, Dot, MemA, MemB, CellAddr, ExtentC, MatmulBuffers;
    var c0 := pf.DevAddr(j.dstC) / 2;
    forall i: nat, c: nat {:trigger CellAddr(j, i, c)} | i < j.p && c < j.r
      ensures m2(c0 + CellAddr(j, i, c)) ==
        Dot(MemA(m, pf, j), MemB(m, pf, j), i, c, n) + m(pf.DevAddr(j.bias) / 2 + CellAddr(j, i, c))
    {
      CellInC(j, i, c);
      AddElement(pf, j, m1, m2, c0 + CellAddr(j, i, c));
    }
    forall y | !(c0 <= y < c0 + ExtentC(j)) ensures m2(y) == m(y) {
      AddElement(pf, j, m1, m2, y);
    }
  }

  lemma CellInC(j: Job, i: nat, c: nat)
    requires i < j.p && c < j.r
    ensures 0 <= CellAddr(j, i, c) < ExtentC(j)
  {
    RowMajorBound(i, j.p, c, j.r);
  }

  /** `gemm` on whole chunks, for every inner dimension: products over q rounded up to whole loads, plus bias. */
  lemma GemmPadded(pf: Platform, j: Job, st: State)
    requires GemmBuffers(pf, j) && st.acc == ZeroAcc() && j.r % 512 == 0
    ensures var st' := Exec(pf, GemmChain(pf, j, OPCODE_MAT_MUL), st);
      st'.hpcCleared && st'.acc == ZeroAcc() && GemmInC(pf, j, PaddedQ(j), st.dram, st'.dram)
  {
    assert j.r == 512 * ColChunks(j);
    hide Exec, Step, ColChunks, BlocksResult, Separate, ProductInC, GemmInC, Blocks, TripleChain, AddTris,
         LastWriterResult, MatmulBuffers;
    var ds, ts := Blocks(pf, j, OPCODE_MAT_MUL, NumBlocks(j)), AddTris(pf, j);
    BlocksRun(pf, j, NumBlocks(j), st);
    var st1 := Exec(pf, ds, st);
    ProductOfBlocks(pf, j, st.dram, st1.dram);
    AddNoFeedback(pf, j);
    TripleChainResult(pf, OPCODE_ELE_ADD, ts, st1);
    ExecConcat(pf, ds, TripleChain(pf, OPCODE_ELE_ADD, ts), st);
    var st2 := Exec(pf, TripleChain(pf, OPCODE_ELE_ADD, ts), st1);
    ExecSnoc(pf, ds + TripleChain(pf, OPCODE_ELE_ADD, ts), EleFinal(pf, OPCODE_ELE_ADD), st);
    StepBarrier(pf, EleFinal(pf, OPCODE_ELE_ADD), OPCODE_ELE_ADD, 0, st2);
    AddToProduct(pf, j, PaddedQ(j), st.dram, st1.dram, st2.dram);
  }

  /** `gemm` on the sizes it is made for: the chain leaves A times B plus bias in C and touches nothing else. */
  lemma GemmCorrect(pf: Platform, j: Job, st: State)
    requires GemmBuffers(pf, j) && st.acc == ZeroAcc()
    requires j.q % 32 == 0 && j.r % 512 == 0
    ensures var st' := Exec(pf, GemmChain(pf, j, OPCODE_MAT_MUL), st);
      st'.hpcCleared && st'.acc == ZeroAcc() && GemmInC(pf, j, j.q, st.dram, st'.dram)
  {
    hide GemmInC, Exec, PaddedQ, GemmChain;
    GemmPadded(pf, j, st);
    PaddedQBound(j);
  }
}
