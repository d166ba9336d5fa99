/** Exactly which sizes `matmul` is right for. */
module MatmulExact {
  import opened Arith
  import opened Sums
  import opened Machine
  import opened DescMem
  import opened MatmulChains
  import opened MatmulResults
  import opened Triples

  /** All three buffers apart, including the slack the chain may read past A and B. */
  ghost predicate AllApart(pf: Platform, j: Job) {
    && MatmulBuffers(pf, j)
    && Separate(pf.DevAddr(j.srcA) / 2, ExtentA(j), pf.DevAddr(j.srcB) / 2, ExtentB(j))
  }

  /** A DRAM of zeros but for ones at a and b. */
  function Ones(a: int, b: int): Dram {
    x => if x == a || x == b then 1 else 0
  }

  // ----- a column count that is not a multiple of 512: the last columns are never written

  lemma ColChunksFloor(j: Job)
    ensures 512 * ColChunks(j) <= j.r < 512 * ColChunks(j) + 512
  {
  }

  function BlockStart(pf: Platform, j: Job, p: nat, r: nat): int {
    pf.DevAddr(j.dstC) / 2 + p * j.r + 512 * r
  }

  /** No block of the chain has element y in its destination. */
  ghost predicate Unwritten(pf: Platform, j: Job, y: int) {
    forall p: nat, r: nat {:trigger BlockStart(pf, j, p, r)} :: p < j.p && r < ColChunks(j) ==>
      !(BlockStart(pf, j, p, r) <= y < BlockStart(pf, j, p, r) + 512)
  }

  lemma {:induction false} BlocksUntouched(pf: Platform, j: Job, n: nat, st: State, y: int)
    requires pf.DevAddr(j.srcA) % 2 == pf.DevAddr(j.srcB) % 2 == pf.DevAddr(j.dstC) % 2 == 0
    requires n <= NumBlocks(j) && (n > 0 ==> ColChunks(j) > 0) && st.acc == ZeroAcc()
    requires Unwritten(pf, j, y)
    ensures var st' := Exec(pf, Blocks(pf, j, OPCODE_MAT_MUL, n), st);
      st'.acc == ZeroAcc() && st'.dram(y) == st.dram(y)
  {
    hide *;
    if n == 0 {
      NoBlocksRun(pf, j, st);
    } else {
      BlocksUntouched(pf, j, n - 1, st, y);
      var st1 := Exec(pf, Blocks(pf, j, OPCODE_MAT_MUL, n - 1), st);
      var p, r := BlocksUnfold(pf, j, n, st);
      BlockRun(pf, j, p, r, st1);
      BlockElsewhere(pf, j, p, r, st1.dram, Exec(pf, Block(pf, j, OPCODE_MAT_MUL, p, r), st1).dram, y);
    }
  }

  lemma BlockElsewhere(pf: Platform, j: Job, p: nat, r: nat, m: Dram, m': Dram, y: int)
    requires p < j.p && r < ColChunks(j) && Unwritten(pf, j, y)
    requires BlockResult(pf, j, p, r, pf.DevAddr(j.dstC) / 2 + p * j.r + 512 * r, m, m')
    ensures m'(y) == m(y)
  {
    hide BlockValue, ColChunks;
    assert !(BlockStart(pf, j, p, r) <= y < BlockStart(pf, j, p, r) + 512);
  }

  lemma DroppedUnwritten(pf: Platform, j: Job)
    requires j.r % 512 != 0
    ensures Unwritten(pf, j, pf.DevAddr(j.dstC) / 2 + 512 * ColChunks(j))
  {
    ColChunksFloor(j);
    hide ColChunks;
    forall p: nat, r: nat {:trigger BlockStart(pf, j, p, r)} | p < j.p && r < ColChunks(j)
      ensures !(BlockStart(pf, j, p, r) <= pf.DevAddr(j.dstC) / 2 + 512 * ColChunks(j) < BlockStart(pf, j, p, r) + 512)
    {
      if p > 0 {
        MulMono(1, p, j.r);
      }
    }
  }

  lemma DroppedColumn(pf: Platform, j: Job, st: State, y: int)
    requires MatmulBuffers(pf, j) && j.p > 0 && j.r % 512 != 0
    requires y == pf.DevAddr(j.dstC) / 2 + 512 * ColChunks(j)
    requires st.acc == ZeroAcc() && st.dram == Ones(y, y)
    ensures !MatmulRight(pf, j, st)
  {
    hide ColChunks, Unwritten, Exec, MatmulChain, Dot, MemA, MemB;
    ColChunksFloor(j);
    MulMono(1, j.p, j.r);
    DroppedUnwritten(pf, j);
    UnwrittenByChain(pf, j, st, y);
    ZeroDot(pf, j, st.dram, 512 * ColChunks(j));
    assert CellAddr(j, 0, 512 * ColChunks(j)) == 512 * ColChunks(j);
  }

  lemma UnwrittenByChain(pf: Platform, j: Job, st: State, y: int)
    requires MatmulBuffers(pf, j) && st.acc == ZeroAcc() && Unwritten(pf, j, y)
    ensures Exec(pf, MatmulChain(pf, j, OPCODE_MAT_MUL), st).dram(y) == st.dram(y)
  {
    hide Exec, Step, Blocks, ColChunks, Unwritten;
    BuffersEven(pf, j);
    var n := NumBlocks(j);
    var ds := Blocks(pf, j, OPCODE_MAT_MUL, n);
    BlocksUntouched(pf, j, n, st, y);
    ExecSnoc(pf, ds, Final(pf, 0, OPCODE_MAT_MUL, 0), st);
    StepBarrier(pf, Final(pf, 0, OPCODE_MAT_MUL, 0), OPCODE_MAT_MUL, 0, Exec(pf, ds, st));
  }

  /** A row of zeros times anything. */
  lemma ZeroDot(pf: Platform, j: Job, m: Dram, c: nat)
    requires j.p > 0
    requires forall y {:trigger m(y)} :: pf.DevAddr(j.srcA) / 2 <= y < pf.DevAddr(j.srcA) / 2 + ExtentA(j) ==> m(y) == 0
    ensures Dot(MemA(m, pf, j), MemB(m, pf, j), 0, c, j.q) == 0
  {
    MulMono(1, j.p, j.q);
    DotOneTerm(MemA(m, pf, j), MemB(m, pf, j), 0, c, j.q, j.q);
  }

  // ----- an inner dimension that is not a multiple of 32: the last load and stream read too far

  lemma ReadTooFar(pf: Platform, j: Job, st: State)
    requires AllApart(pf, j) && j.p > 0 && j.r > 0 && j.r % 512 == 0 && j.q % 32 != 0
    requires st.acc == ZeroAcc()
    requires st.dram == Ones(pf.DevAddr(j.srcA) / 2 + j.p * j.q, pf.DevAddr(j.srcB) / 2 + (ColChunks(j) * j.q) * 512)
    ensures !MatmulRight(pf, j, st)
  {
    hide Exec, Dot, PaddedQ, MemA, MemB, MatmulBuffers, CellAddr, MatmulChain, Ones;
    PaddedQBound(j);
    MatmulPadded(pf, j, st);
    StrayProduct(pf, j, st.dram, PaddedQ(j));
    StrayProduct(pf, j, st.dram, j.q);
    var m' := Exec(pf, MatmulChain(pf, j, OPCODE_MAT_MUL), st).dram;
    assert m'(pf.DevAddr(j.dstC) / 2 + CellAddr(j, j.p - 1, j.r - 512)) == 1;
  }

  /** On that DRAM the last row of A and the first column of the last chunk of B meet in one stray product. */
  lemma StrayProduct(pf: Platform, j: Job, m: Dram, n: nat)
    requires AllApart(pf, j) && j.p > 0 && j.r > 0 && j.r % 512 == 0 && j.q % 32 != 0 && n <= PaddedQ(j)
    requires m == Ones(pf.DevAddr(j.srcA) / 2 + j.p * j.q, pf.DevAddr(j.srcB) / 2 + (ColChunks(j) * j.q) * 512)
    ensures Dot(MemA(m, pf, j), MemB(m, pf, j), j.p - 1, j.r - 512, n) == if j.q < n then 1 else 0
  {
    hide AllApart, ColChunks, Dot, Ones, MemA, MemB, PaddedQ;
    var A, B, c := MemA(m, pf, j), MemB(m, pf, j), j.r - 512;
    forall k: nat {:trigger Product(A, B, j.p - 1, c, k)} | k < n
      ensures Product(A, B, j.p - 1, c, k) == if k == j.q then 1 else 0
    {
      StrayA(pf, j, m, k);
      StrayB(pf, j, m, k);
    }
    DotOneTerm(A, B, j.p - 1, c, j.q, n);
  }

  /** The two ones lie in the slack behind A and B. */
  lemma StrayPlaces(pf: Platform, j: Job)
    requires AllApart(pf, j) && j.q % 32 != 0
    ensures Slack(j) > 0 && j.p * j.q < ExtentA(j) && (ColChunks(j) * j.q) * 512 < ExtentB(j)
    ensures Separate(pf.DevAddr(j.srcA) / 2, ExtentA(j), pf.DevAddr(j.srcB) / 2, ExtentB(j))
  {
    PaddedQBound(j);
    hide PaddedQ, ColChunks, MatmulBuffers;
  }

  lemma StrayA(pf: Platform, j: Job, m: Dram, k: nat)
    requires AllApart(pf, j) && j.p > 0 && j.q % 32 != 0 && k < PaddedQ(j)
    requires m == Ones(pf.DevAddr(j.srcA) / 2 + j.p * j.q, pf.DevAddr(j.srcB) / 2 + (ColChunks(j) * j.q) * 512)
    ensures MemA(m, pf, j)(j.p - 1, k) == if k == j.q then 1 else 0
  {
    hide AllApart, ColChunks, ExtentB, Slack;
    StrayPlaces(pf, j);
    SlackIs(j);
    RowIn(j.p - 1, j.p, j.q, k, Slack(j));
    assert j.p * j.q == (j.p - 1) * j.q + j.q;
  }

  lemma SlackIs(j: Job)
    ensures PaddedQ(j) == j.q + Slack(j)
  {
    PaddedQBound(j);
  }

  lemma StrayB(pf: Platform, j: Job, m: Dram, k: nat)
    requires AllApart(pf, j) && j.r > 0 && j.r % 512 == 0 && j.q % 32 != 0 && k < PaddedQ(j)
    requires m == Ones(pf.DevAddr(j.srcA) / 2 + j.p * j.q, pf.DevAddr(j.srcB) / 2 + (ColChunks(j) * j.q) * 512)
    ensures MemB(m, pf, j)(k, j.r - 512) == if k == j.q then 1 else 0
  {
    var R: nat := LastChunk(j);
    hide AllApart, ColChunks, ExtentA, Slack;
    StrayPlaces(pf, j);
    SlackIs(j);
    RowIn(R - 1, R, j.q, k, Slack(j));
    assert R * j.q == (R - 1) * j.q + j.q;
  }

  lemma LastChunk(j: Job) returns (R: nat)
    requires j.r > 0 && j.r % 512 == 0
    ensures R == ColChunks(j) > 0 && (j.r - 512) / 512 == R - 1 && (j.r - 512) % 512 == 0
  {
    R := ColChunks(j);
    assert j.r == 512 * R;
  }

  /** `matmul` is right on every DRAM exactly when q is a multiple of 32 and r a multiple of 512. */
  lemma MatmulExactSizes(pf: Platform, j: Job)
    requires AllApart(pf, j) && j.p > 0 && j.r > 0
    ensures (j.q % 32 == 0 && j.r % 512 == 0) <==> forall st: State :: st.acc == ZeroAcc() ==> MatmulRight(pf, j, st)
  {
    hide MatmulRight, ColChunks, Ones, MatmulBuffers;
    if j.r % 512 != 0 {
      var y := pf.DevAddr(j.dstC) / 2 + 512 * ColChunks(j);
      DroppedColumn(pf, j, State(Ones(y, y), [], ZeroAcc(), false), y);
    } else if j.q % 32 != 0 {
      ReadTooFar(pf, j, State(
        Ones(pf.DevAddr(j.srcA) / 2 + j.p * j.q, pf.DevAddr(j.srcB) / 2 + (ColChunks(j) * j.q) * 512), [], ZeroAcc(),
          false));
    } else {
      forall st: State | st.acc == ZeroAcc() ensures MatmulRight(pf, j, st) {
        MatmulCorrect(pf, j, st);
      }
    }
  }
}
