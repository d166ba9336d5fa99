/** What the device computes when it executes the multiplication blocks that `matmul` and `gemm` emit. */
module MatmulResults {
  import opened Arith
  import opened Sums
  import opened Machine
  import opened DescMem
  import opened Triples
  import opened MatmulChains

  /** A as DRAM holds it: row-major, q columns. */
  function MemA(m: Dram, pf: Platform, j: Job): Matrix {
    (i: int, k: int) => m(pf.DevAddr(j.srcA) / 2 + i * j.q + k)
  }

  /** B as DRAM holds it: chunk after chunk of 512 columns, each chunk row-major. */
  function MemB(m: Dram, pf: Platform, j: Job): Matrix {
    (k: int, c: int) => m(pf.DevAddr(j.srcB) / 2 + ((c / 512) * j.q + k) * 512 + c % 512)
  }

  /** The inner dimension as the chain sees it: q rounded up to whole loads of 32. */
  function PaddedQ(j: Job): nat { 32 * Ceil(j.q, 32) }

  /** How far the chain reads past the last row of A and the last chunk of B: not at all for q a multiple of 32. */
  function Slack(j: Job): nat {
    PaddedQBound(j);
    PaddedQ(j) - j.q
  }

  /** Elements the chain touches. */
  function ExtentA(j: Job): nat { j.p * j.q + Slack(j) }
  function ExtentB(j: Job): nat { (ColChunks(j) * j.q + Slack(j)) * 512 }
  function ExtentC(j: Job): nat { j.p * j.r }

  ghost predicate MatmulBuffers(pf: Platform, j: Job) {
    && pf.DevAddr(j.srcA) % 2 == pf.DevAddr(j.srcB) % 2 == pf.DevAddr(j.dstC) % 2 == 0
    && Separate(pf.DevAddr(j.dstC) / 2, ExtentC(j), pf.DevAddr(j.srcA) / 2, ExtentA(j))
    && Separate(pf.DevAddr(j.dstC) / 2, ExtentC(j), pf.DevAddr(j.srcB) / 2, ExtentB(j))
  }

  lemma PairAddresses(pf: Platform, j: Job, opcode: nat, p: nat, r: nat, q: nat)
    requires pf.DevAddr(j.srcA) % 2 == pf.DevAddr(j.srcB) % 2 == 0
    ensures LoadA(pf, j, opcode, p, q).sa / 2 == pf.DevAddr(j.srcA) / 2 + p * j.q + q
    ensures StreamB(pf, j, opcode, r, q).sa / 2 == pf.DevAddr(j.srcB) / 2 + (r * j.q + q) * 512
  {
    assert (j.q * 2) * p == 2 * (p * j.q);
    assert j.q * 1024 * r == 2 * ((r * j.q) * 512);
  }

  lemma WriteAddress(pf: Platform, j: Job, opcode: nat, p: nat, r: nat)
    requires pf.DevAddr(j.dstC) % 2 == 0
    ensures WriteC(pf, j, opcode, p, r).da / 2 == pf.DevAddr(j.dstC) / 2 + p * j.r + 512 * r
  {
    assert p * j.r * TYPE_SIZE == 2 * (p * j.r);
  }

  /** The accumulators hold the first q products of row p of A with each column of chunk r of B. */
  ghost predicate AccHolds(m: Dram, pf: Platform, j: Job, p: nat, r: nat, q: nat, acc: seq<int>) {
    && |acc| == ACC_SIZE
    && forall x {:trigger acc[x]} :: 0 <= x < ACC_SIZE ==>
         acc[x] == Dot(MemA(m, pf, j), MemB(m, pf, j), p, 512 * r + x, q)
  }

  /** One load/stream pair adds 32 more products to every accumulator. */
  lemma PairStep(pf: Platform, j: Job, p: nat, r: nat, q: nat, st: State)
    requires pf.DevAddr(j.srcA) % 2 == pf.DevAddr(j.srcB) % 2 == 0
    requires AccHolds(st.dram, pf, j, p, r, q, st.acc)
    ensures var st' := Step(pf, StreamB(pf, j, OPCODE_MAT_MUL, r, q), Step(pf, LoadA(pf, j, OPCODE_MAT_MUL, p, q), st));
      && st'.dram == st.dram && st'.hpcCleared == st.hpcCleared && AccHolds(st.dram, pf, j, p, r, q + 32, st'.acc)
  {
    hide Step, AccHolds, Read, Combine;
    StepLoad(pf, LoadA(pf, j, OPCODE_MAT_MUL, p, q), OPCODE_MAT_MUL, 0, st);
    var st1 := Step(pf, LoadA(pf, j, OPCODE_MAT_MUL, p, q), st);
    StepStream(pf, StreamB(pf, j, OPCODE_MAT_MUL, r, q), OPCODE_MAT_MUL, 0, st1);
    PairAddresses(pf, j, OPCODE_MAT_MUL, p, r, q);
    CombinePair(pf, j, st.dram, p, r, q, st.acc);
  }

  /** What the load of a pair brings in: 32 elements of row p of A from column q on. */
  function PairVec(m: Dram, pf: Platform, j: Job, p: nat, q: nat): seq<int> {
    Read(m, pf.DevAddr(j.srcA) / 2 + p * j.q + q, 32)
  }

  /** What the stream of a pair brings in: 32 rows of chunk r of B from row q on. */
  function PairStream(m: Dram, pf: Platform, j: Job, r: nat, q: nat): seq<int> {
    Read(m, pf.DevAddr(j.srcB) / 2 + (r * j.q + q) * 512, 32 * 512)
  }

  lemma CombinePair(pf: Platform, j: Job, m: Dram, p: nat, r: nat, q: nat, acc: seq<int>)
    requires AccHolds(m, pf, j, p, r, q, acc)
    ensures AccHolds(m, pf, j, p, r, q + 32, Combine(OPCODE_MAT_MUL, PairVec(m, pf, j, p, q), acc,
      PairStream(m, pf, j, r, q)))
  {
    hide PairVec, PairStream, MemA, MemB, MatMulTerm, Dot, Product, Combine;
    forall x: nat | x < ACC_SIZE {
      CombineElement(pf, j, m, p, r, q, acc, x);
    }
  }

  lemma CombineElement(pf: Platform, j: Job, m: Dram, p: nat, r: nat, q: nat, acc: seq<int>, x: nat)
    requires x < ACC_SIZE == |acc|
    requires acc[x] == Dot(MemA(m, pf, j), MemB(m, pf, j), p, 512 * r + x, q)
    ensures Combine(OPCODE_MAT_MUL, PairVec(m, pf, j, p, q), acc, PairStream(m, pf, j, r, q))[x] ==
      Dot(MemA(m, pf, j), MemB(m, pf, j), p, 512 * r + x, q + 32)
  {
    hide PairVec, PairStream, MemA, MemB, MatMulTerm, Dot, Product, Combine;
    var vec, s := PairVec(m, pf, j, p, q), PairStream(m, pf, j, r, q);
    CombineMatMul(vec, acc, s, x);
    PairTerms(pf, j, m, p, r, q, x);
    DotSplit(MemA(m, pf, j), MemB(m, pf, j), p, 512 * r + x, q, MatMulTerm(vec, s, x), 32);
  }

  lemma PairTerms(pf: Platform, j: Job, m: Dram, p: nat, r: nat, q: nat, x: nat)
    requires x < ACC_SIZE
    ensures var f := MatMulTerm(PairVec(m, pf, j, p, q), PairStream(m, pf, j, r, q), x);
      forall k {:trigger f(k)} :: 0 <= k < 32 ==>
        f(k) == Product(MemA(m, pf, j), MemB(m, pf, j), p, 512 * r + x, q + k)
  {
    var vec, s := PairVec(m, pf, j, p, q), PairStream(m, pf, j, r, q);
    assert (512 * r + x) / 512 == r && (512 * r + x) % 512 == x;
    forall k | 0 <= k < 32
      ensures MatMulTerm(vec, s, x)(k) == Product(MemA(m, pf, j), MemB(m, pf, j), p, 512 * r + x, q + k)
    {
      assert s[k * 512 + x] == m(pf.DevAddr(j.srcB) / 2 + (r * j.q + q) * 512 + (k * 512 + x));
    }
  }

  /** After n pairs every accumulator holds the first 32 * n products of its dot product. */
  lemma {:induction false} PairsRun(pf: Platform, j: Job, p: nat, r: nat, n: nat, st: State)
    requires pf.DevAddr(j.srcA) % 2 == pf.DevAddr(j.srcB) % 2 == 0
    requires st.acc == ZeroAcc()
    ensures var st' := Exec(pf, Pairs(pf, j, OPCODE_MAT_MUL, p, r, n), st);
      && st'.dram == st.dram && st'.hpcCleared == st.hpcCleared && AccHolds(st.dram, pf, j, p, r, 32 * n, st'.acc)
  {
    hide Step, MemA, MemB, LoadA, StreamB;
    if n == 0 {
    } else {
      var a, b := LoadA(pf, j, OPCODE_MAT_MUL, p, 32 * (n - 1)), StreamB(pf, j, OPCODE_MAT_MUL, r, 32 * (n - 1));
      var ds := Pairs(pf, j, OPCODE_MAT_MUL, p, r, n - 1);
      PairsRun(pf, j, p, r, n - 1, st);
      ExecSnoc(pf, ds + [a], b, st);
      ExecSnoc(pf, ds, a, st);
      hide Exec, Pairs, AccHolds;
      PairStep(pf, j, p, r, 32 * (n - 1), Exec(pf, ds, st));
    }
  }

  /** The value a block leaves in its x'th column. */
  function BlockValue(m: Dram, pf: Platform, j: Job, p: nat, r: nat, x: int): int {
    Dot(MemA(m, pf, j), MemB(m, pf, j), p, 512 * r + x, PaddedQ(j))
  }

  /** DRAM m' is DRAM m with the 512 elements at c replaced by what block (p, r) computes from m. */
  ghost predicate BlockResult(pf: Platform, j: Job, p: nat, r: nat, c: int, m: Dram, m': Dram) {
    forall y {:trigger m'(y)} :: m'(y) == if c <= y < c + 512 then BlockValue(m, pf, j, p, r, y - c) else m(y)
  }

  lemma FlushResult(pf: Platform, j: Job, p: nat, r: nat, c: int, m: Dram, acc: seq<int>)
    requires AccHolds(m, pf, j, p, r, PaddedQ(j), acc)
    ensures BlockResult(pf, j, p, r, c, m, Write(m, c, acc, 512))
  {
    hide Dot, MemA, MemB, PaddedQ;
    forall y | c <= y < c + 512 ensures Write(m, c, acc, 512)(y) == BlockValue(m, pf, j, p, r, y - c) {
      assert At(acc, y - c) == acc[y - c];
    }
  }

  lemma BlockRun(pf: Platform, j: Job, p: nat, r: nat, st: State)
    requires pf.DevAddr(j.srcA) % 2 == pf.DevAddr(j.srcB) % 2 == pf.DevAddr(j.dstC) % 2 == 0
    requires st.acc == ZeroAcc()
    ensures var st' := Exec(pf, Block(pf, j, OPCODE_MAT_MUL, p, r), st);
      && st'.acc == ZeroAcc() && st'.hpcCleared == st.hpcCleared
      && BlockResult(pf, j, p, r, pf.DevAddr(j.dstC) / 2 + p * j.r + 512 * r, st.dram, st'.dram)
  {
    hide Step, Pairs, Exec, AccHolds, BlockResult;
    var op := OPCODE_MAT_MUL;
    var ds, bar, w := Pairs(pf, j, op, p, r, Ceil(j.q, 32)), Barrier(pf, op, 0), WriteC(pf, j, op, p, r);
    PairsRun(pf, j, p, r, Ceil(j.q, 32), st);
    var st1 := Exec(pf, ds, st);
    ExecSnoc(pf, ds + [bar] + [w], bar, st);
    ExecSnoc(pf, ds + [bar], w, st);
    ExecSnoc(pf, ds, bar, st);
    StepBarrier(pf, bar, op, 0, st1);
    var st2 := Step(pf, bar, st1);
    StepWrite(pf, w, op, 0, st2);
    StepBarrier(pf, bar, op, 0, Step(pf, w, st2));
    WriteAddress(pf, j, op, p, r);
    FlushResult(pf, j, p, r, pf.DevAddr(j.dstC) / 2 + p * j.r + 512 * r, st.dram, st1.acc);
  }

  // ----- runs of blocks

  lemma PaddedQBound(j: Job)
    ensures j.q <= PaddedQ(j) < j.q + 32
    ensures j.q % 32 == 0 <==> PaddedQ(j) == j.q
  {
  }

  /** A block's values depend on the two source buffers only. */
  lemma BlockValueFrame(pf: Platform, j: Job, p: nat, r: nat, x: nat, m: Dram, m': Dram)
    requires p < j.p && r < ColChunks(j) && x < 512
    requires Agree(m, m', pf.DevAddr(j.srcA) / 2, ExtentA(j)) && Agree(m, m', pf.DevAddr(j.srcB) / 2, ExtentB(j))
    ensures BlockValue(m', pf, j, p, r, x) == BlockValue(m, pf, j, p, r, x)
  {
    hide ColChunks, Dot, PaddedQ;
    PaddedQBound(j);
    var c := 512 * r + x;
    assert c / 512 == r && c % 512 == x;
    forall k: nat | k < PaddedQ(j)
      ensures MemA(m', pf, j)(p, k) == MemA(m, pf, j)(p, k)
      ensures MemB(m', pf, j)(k, c) == MemB(m, pf, j)(k, c)
    {
      RowIn(p, j.p, j.q, k, Slack(j));
      RowIn(r, ColChunks(j), j.q, k, Slack(j));
      assert 0 <= (r * j.q + k) * 512 + x < ExtentB(j);
    }
    DotExt(MemA(m', pf, j), MemB(m', pf, j), p, c, MemA(m, pf, j), MemB(m, pf, j), p, c, PaddedQ(j));
  }

  /** Row i of an n-row matrix with rows of length q, read up to s elements too far. */
  lemma RowIn(i: nat, n: nat, q: nat, k: nat, s: nat)
    requires i < n && k < q + s
    ensures 0 <= i * q + k < n * q + s
  {
    MulMono(i + 1, n, q);
    assert (i + 1) * q == i * q + q;
  }

  /** The value that flat element d of C ends with. */
  function CellValue(m: Dram, pf: Platform, j: Job, d: nat): int
    requires ColChunks(j) > 0
  {
    BlockValue(m, pf, j, (d / 512) / ColChunks(j), (d / 512) % ColChunks(j), d % 512)
  }

  /** DRAM m' is DRAM m with the first n blocks of C replaced by their values in m. */
  ghost predicate BlocksResult(pf: Platform, j: Job, n: nat, m: Dram, m': Dram)
    requires n > 0 ==> ColChunks(j) > 0
  {
    var c := pf.DevAddr(j.dstC) / 2;
    forall y {:trigger m'(y)} :: m'(y) == if c <= y < c + 512 * n then CellValue(m, pf, j, y - c) else m(y)
  }

  function NumBlocks(j: Job): nat { j.p * ColChunks(j) }

  function BlockNo(j: Job, p: nat, r: nat): nat { p * ColChunks(j) + r }

  lemma BlocksResultStep(pf: Platform, j: Job, p: nat, r: nat, m: Dram, m1: Dram, m2: Dram)
    requires MatmulBuffers(pf, j) && j.r == 512 * ColChunks(j)
    requires p < j.p && r < ColChunks(j)
    requires BlocksResult(pf, j, BlockNo(j, p, r), m, m1)
    requires BlockResult(pf, j, p, r, pf.DevAddr(j.dstC) / 2 + p * j.r + 512 * r, m1, m2)
    ensures BlocksResult(pf, j, BlockNo(j, p, r) + 1, m, m2)
  {
    hide ColChunks, CellValue, MatmulBuffers, BlockResult, BlockNo;
    forall y {
      BlocksCell(pf, j, p, r, m, m1, m2, y);
    }
  }

  lemma BlocksCell(pf: Platform, j: Job, p: nat, r: nat, m: Dram, m1: Dram, m2: Dram, y: int)
    requires MatmulBuffers(pf, j) && j.r == 512 * ColChunks(j)
    requires p < j.p && r < ColChunks(j)
    requires BlocksResult(pf, j, BlockNo(j, p, r), m, m1)
    requires BlockResult(pf, j, p, r, pf.DevAddr(j.dstC) / 2 + p * j.r + 512 * r, m1, m2)
    ensures var c := pf.DevAddr(j.dstC) / 2;
      m2(y) == if c <= y < c + 512 * (BlockNo(j, p, r) + 1) then CellValue(m, pf, j, y - c) else m(y)
  {
    hide ColChunks, BlockValue;
    var R, c := ColChunks(j), pf.DevAddr(j.dstC) / 2;
    var n := BlockNo(j, p, r);
    BlockBase(j, p, r);
    if c + 512 * n <= y < c + 512 * n + 512 {
      var x: nat := y - c - 512 * n;
      BlockIndex(j, p, r);
      assert (y - c) / 512 == n && (y - c) % 512 == x;
      SourcesIntact(pf, j, n, m, m1);
      BlockValueFrame(pf, j, p, r, x, m, m1);
    }
  }

  lemma SourcesIntact(pf: Platform, j: Job, n: nat, m: Dram, m1: Dram)
    requires MatmulBuffers(pf, j) && j.r == 512 * ColChunks(j) && ColChunks(j) > 0
    requires n <= NumBlocks(j) && BlocksResult(pf, j, n, m, m1)
    ensures Agree(m, m1, pf.DevAddr(j.srcA) / 2, ExtentA(j)) && Agree(m, m1, pf.DevAddr(j.srcB) / 2, ExtentB(j))
  {
    hide ColChunks, CellValue, ExtentA, ExtentB;
    assert ExtentC(j) == 512 * (NumBlocks(j));
  }

  lemma BlockBase(j: Job, p: nat, r: nat)
    requires j.r == 512 * ColChunks(j) && p < j.p && r < ColChunks(j)
    ensures p * j.r + 512 * r == 512 * (BlockNo(j, p, r))
    ensures BlockNo(j, p, r) + 1 <= NumBlocks(j)
  {
    hide ColChunks;
    BlockIndex(j, p, r);
    assert p * (512 * ColChunks(j)) == 512 * (p * ColChunks(j));
  }

  /** Running n blocks is running block n - 1, which is block (p, r), after the others. */
  lemma BlocksUnfold(pf: Platform, j: Job, n: nat, st: State) returns (p: nat, r: nat)
    requires 0 < n <= NumBlocks(j) && ColChunks(j) > 0
    ensures p < j.p && r < ColChunks(j) && n == BlockNo(j, p, r) + 1
    ensures Exec(pf, Blocks(pf, j, OPCODE_MAT_MUL, n), st) ==
      Exec(pf, Block(pf, j, OPCODE_MAT_MUL, p, r), Exec(pf, Blocks(pf, j, OPCODE_MAT_MUL, n - 1), st))
  {
    hide Exec, Blocks, Block, ColChunks;
    p, r := RowAndCol(n - 1, j.p, ColChunks(j));
    BlockAt(pf, j, OPCODE_MAT_MUL, p, r);
    ExecConcat(pf, Blocks(pf, j, OPCODE_MAT_MUL, n - 1), Block(pf, j, OPCODE_MAT_MUL, p, r), st);
  }

  lemma NoBlocksRun(pf: Platform, j: Job, st: State)
    ensures Exec(pf, Blocks(pf, j, OPCODE_MAT_MUL, 0), st) == st && BlocksResult(pf, j, 0, st.dram, st.dram)
  {
  }

  lemma {:induction false} BlocksRun(pf: Platform, j: Job, n: nat, st: State)
    requires MatmulBuffers(pf, j) && j.r == 512 * ColChunks(j)
    requires n <= NumBlocks(j) && (n > 0 ==> ColChunks(j) > 0)
    requires st.acc == ZeroAcc()
    ensures var st' := Exec(pf, Blocks(pf, j, OPCODE_MAT_MUL, n), st);
      st'.acc == ZeroAcc() && st'.hpcCleared == st.hpcCleared && BlocksResult(pf, j, n, st.dram, st'.dram)
  {
    hide *;
    if n == 0 {
      NoBlocksRun(pf, j, st);
    } else {
      BlocksRun(pf, j, n - 1, st);
      var st1 := Exec(pf, Blocks(pf, j, OPCODE_MAT_MUL, n - 1), st);
      var p, r := BlocksUnfold(pf, j, n, st);
      BuffersEven(pf, j);
      BlockRun(pf, j, p, r, st1);
      BlocksResultStep(pf, j, p, r, st.dram, st1.dram, Exec(pf, Block(pf, j, OPCODE_MAT_MUL, p, r), st1).dram);
    }
  }

  lemma BuffersEven(pf: Platform, j: Job)
    requires MatmulBuffers(pf, j)
    ensures pf.DevAddr(j.srcA) % 2 == pf.DevAddr(j.srcB) % 2 == pf.DevAddr(j.dstC) % 2 == 0
  {
  }

  // ----- the matmul chain

  /** Every element of C ends as the dot product of its row of A and its column of B. */
  ghost predicate MatmulRight(pf: Platform, j: Job, st: State) {
    ProductInC(pf, j, j.q, st.dram, Exec(pf, MatmulChain(pf, j, OPCODE_MAT_MUL), st).dram)
  }

  function CellAddr(j: Job, i: nat, c: nat): nat { i * j.r + c }

  lemma CellOf(pf: Platform, j: Job, m: Dram, i: nat, c: nat)
    requires j.r == 512 * ColChunks(j) && i < j.p && c < j.r
    ensures ColChunks(j) > 0 && CellAddr(j, i, c) < 512 * (NumBlocks(j))
    ensures CellValue(m, pf, j, CellAddr(j, i, c)) == Dot(MemA(m, pf, j), MemB(m, pf, j), i, c, PaddedQ(j))
  {
    hide ColChunks, Dot, MemA, MemB, PaddedQ;
    var R := ColChunks(j);
    RowMajorBound(i, j.p, c, j.r);
    assert j.p * j.r == 512 * (j.p * R);
    assert i * j.r == 512 * (i * R);
    assert CellAddr(j, i, c) / 512 == i * R + c / 512 && CellAddr(j, i, c) % 512 == c % 512;
    DivMod(i, c / 512, R);
  }

  /** C holds, row by row, the dot products over the first n terms; the rest of DRAM is untouched. */
  ghost predicate ProductInC(pf: Platform, j: Job, n: nat, m: Dram, m': Dram) {
    var c0 := pf.DevAddr(j.dstC) / 2;
    && (forall i: nat, c: nat {:trigger CellAddr(j, i, c)} :: i < j.p && c < j.r ==>
          m'(c0 + CellAddr(j, i, c)) == Dot(MemA(m, pf, j), MemB(m, pf, j), i, c, n))
    && (forall y {:trigger m'(y)} :: !(c0 <= y < c0 + ExtentC(j)) ==> m'(y) == m(y))
  }

  lemma ProductOfBlocks(pf: Platform, j: Job, m: Dram, m': Dram)
    requires j.r == 512 * ColChunks(j) && (NumBlocks(j) > 0 ==> ColChunks(j) > 0)
    requires BlocksResult(pf, j, NumBlocks(j), m, m')
    ensures ProductInC(pf, j, PaddedQ(j), m, m')
  {
    hide Dot, PaddedQ, ColChunks, CellValue, CellAddr;
    assert ExtentC(j) == 512 * (NumBlocks(j));
    forall i: nat, c: nat {:trigger CellAddr(j, i, c)} | i < j.p && c < j.r
      ensures m'(pf.DevAddr(j.dstC) / 2 + CellAddr(j, i, c)) == Dot(MemA(m, pf, j), MemB(m, pf, j), i, c, PaddedQ(j))
    {
      CellOf(pf, j, m, i, c);
    }
  }

  /** For every inner dimension: the chain multiplies over q rounded up to whole loads. */
  lemma MatmulPadded(pf: Platform, j: Job, st: State)
    requires MatmulBuffers(pf, j) && st.acc == ZeroAcc() && j.r % 512 == 0
    ensures var st' := Exec(pf, MatmulChain(pf, j, OPCODE_MAT_MUL), st);
      st'.acc == ZeroAcc() && st'.hpcCleared && ProductInC(pf, j, PaddedQ(j), st.dram, st'.dram)
  {
    assert j.r == 512 * ColChunks(j);
    hide Exec, Step, ColChunks, BlocksResult, ProductInC, Blocks;
    var n := NumBlocks(j);
    var ds := Blocks(pf, j, OPCODE_MAT_MUL, n);
    BlocksRun(pf, j, n, st);
    var st1 := Exec(pf, ds, st);
    ExecSnoc(pf, ds, Final(pf, 0, OPCODE_MAT_MUL, 0), st);
    StepBarrier(pf, Final(pf, 0, OPCODE_MAT_MUL, 0), OPCODE_MAT_MUL, 0, st1);
    ProductOfBlocks(pf, j, st.dram, st1.dram);
  }

  /** `matmul` on the sizes it is made for: the chain leaves A times B in C and touches nothing else. */
  lemma MatmulCorrect(pf: Platform, j: Job, st: State)
    requires MatmulBuffers(pf, j) && st.acc == ZeroAcc()
    requires j.q % 32 == 0 && j.r % 512 == 0
    ensures MatmulRight(pf, j, st)
    ensures var st' := Exec(pf, MatmulChain(pf, j, OPCODE_MAT_MUL), st); st'.acc == ZeroAcc() && st'.hpcCleared
  {
    hide ProductInC, Exec, PaddedQ, MatmulChain;
    MatmulPadded(pf, j, st);
    PaddedQBound(j);
  }
}
