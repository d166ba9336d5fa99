/** What the device computes when it executes the chains of `elewise` and `bias_op`. */
module ElementwiseResults {
  import opened Arith
  import opened Machine
  import opened DescMem
  import opened Triples
  import opened Elementwise

  // ----- elewise

  /** Element offset of row p, column r; every buffer of an elementwise job uses the same one. */
  function ElemOffset(j: Job, p: nat, r: nat): nat {
    p * Aligned(j.r) + r
  }

  /** Elements that n rows of whole chunks cover: the last row's final chunk may stick out. */
  function RowsExtent(n: nat, r_size: nat): nat {
    if n == 0 then 0 else (n - 1) * Aligned(r_size) + 512 * Chunks(r_size)
  }

  /** Elements an `elewise` job touches in each buffer, and those that belong to its aligned rows. */
  function EleExtent(j: Job): nat { RowsExtent(j.p, j.r) }
  function EleArea(j: Job): nat { j.p * Aligned(j.r) }

  ghost predicate EleEven(pf: Platform, j: Job) {
    pf.DevAddr(j.srcA) % 2 == pf.DevAddr(j.srcB) % 2 == pf.DevAddr(j.dstC) % 2 == 0
  }

  /** What is written must not overlap the rows that are read. */
  ghost predicate EleBuffers(pf: Platform, j: Job) {
    && EleEven(pf, j)
    && Separate(pf.DevAddr(j.dstC) / 2, EleExtent(j), pf.DevAddr(j.srcA) / 2, EleArea(j))
    && Separate(pf.DevAddr(j.dstC) / 2, EleExtent(j), pf.DevAddr(j.srcB) / 2, EleArea(j))
  }

  /** Whole chunks reach at least as far as the aligned row. */
  lemma AlignedBound(r_size: nat)
    ensures r_size <= Aligned(r_size) <= 512 * Chunks(r_size)
    ensures Chunks(r_size) == 0 <==> r_size == 0
    ensures r_size > 0 ==> 512 * (Chunks(r_size) - 1) < r_size
  {
    hide Chunks, Aligned;
    var R := Chunks(r_size);
    ChunkStep(r_size, R);
    ChunkStep(r_size, 0);
    AlignedLe(r_size, R);
    if r_size > 0 {
      ChunkStep(r_size, R - 1);
    }
  }

  lemma AlignedLe(r_size: nat, R: nat)
    requires r_size <= 512 * R
    ensures r_size <= Aligned(r_size) <= 512 * R
  {
    if r_size % 32 != 0 {
      assert r_size / 32 < 16 * R;
    }
  }

  /** Triple number n belongs to one row and one chunk of it. */
  lemma EleTriSplit(pf: Platform, j: Job, n: nat) returns (p: nat, i: nat)
    requires n < |EleTris(pf, j)|
    ensures p < j.p && i < Chunks(j.r) && n == p * Chunks(j.r) + i && EleTris(pf, j)[n] == EleTri(pf, j, p, 512 * i)
  {
    hide EleTri, Chunks;
    FlatSplit(n, j.p, Chunks(j.r));
    p, i := n / Chunks(j.r), n % Chunks(j.r);
  }

  lemma EleTriElems(pf: Platform, j: Job, p: nat, i: nat)
    requires EleEven(pf, j)
    requires p < j.p && i < Chunks(j.r)
    ensures ElemOffset(j, p, 512 * i) + ACC_SIZE <= EleExtent(j)
    ensures EleTri(pf, j, p, 512 * i).a / 2 == pf.DevAddr(j.srcA) / 2 + ElemOffset(j, p, 512 * i)
    ensures EleTri(pf, j, p, 512 * i).b / 2 == pf.DevAddr(j.srcB) / 2 + ElemOffset(j, p, 512 * i)
    ensures EleTri(pf, j, p, 512 * i).c / 2 == pf.DevAddr(j.dstC) / 2 + ElemOffset(j, p, 512 * i)
  {
    hide Chunks, Aligned;
    MulMono(p, j.p - 1, Aligned(j.r));
    assert EleOffset(j, p, 512 * i) == 2 * ElemOffset(j, p, 512 * i);
  }

  /** Element x lies in one of n full rows of length ra, or after them. */
  lemma RowOf(x: nat, n: nat, ra: nat) returns (p: nat, d: nat)
    ensures p <= n && x == p * ra + d && (p < n ==> d < ra)
  {
    if n * ra <= x {
      p, d := n, x - n * ra;
    } else {
      FlatSplit(x, n, ra);
      p, d := x / ra, x % ra;
    }
  }

  /** Row and chunk that hold element x of the extent. */
  lemma RowsLocate(n: nat, r_size: nat, x: nat) returns (p: nat, i: nat)
    requires x < RowsExtent(n, r_size)
    ensures p < n && i < Chunks(r_size) && p * Aligned(r_size) + 512 * i <= x < p * Aligned(r_size) + 512 * i + 512
  {
    hide Chunks, Aligned;
    AlignedBound(r_size);
    var d: nat;
    p, d := RowOf(x, n - 1, Aligned(r_size));
    assert d < 512 * Chunks(r_size);
    i := d / 512;
  }

  /** Some chunk covers each element of the extent. */
  lemma EleCovered(pf: Platform, j: Job, x: nat) returns (n: nat)
    requires EleEven(pf, j)
    requires x < EleExtent(j)
    ensures n < |EleTris(pf, j)| && Covers(EleTris(pf, j)[n], pf.DevAddr(j.dstC) / 2 + x)
  {
    hide EleTris, EleTri, Chunks, Aligned, RowsExtent;
    var p, i := RowsLocate(j.p, j.r, x);
    assert ElemOffset(j, p, 512 * i) == p * Aligned(j.r) + 512 * i;
    EleTriAt(pf, j, p, i);
    EleTriElems(pf, j, p, i);
    n := p * Chunks(j.r) + i;
  }

  /** What lies outside the extent of C is written by no triple. */
  lemma EleUnwritten(pf: Platform, j: Job, n: nat, y: int)
    requires EleEven(pf, j) && n <= |EleTris(pf, j)|
    requires !(pf.DevAddr(j.dstC) / 2 <= y < pf.DevAddr(j.dstC) / 2 + EleExtent(j))
    ensures LastWriter(EleTris(pf, j)[..n], y) < 0
  {
    hide EleTris, EleTri, Chunks, ElemOffset, EleExtent, EleEven;
    var k := LastWriter(EleTris(pf, j)[..n], y);
    if k >= 0 {
      var p, i := EleTriSplit(pf, j, k);
      EleTriElems(pf, j, p, i);
    }
  }

  /** Running a chain of triples and the final descriptor. */
  lemma EleRun(pf: Platform, opcode: nat, ts: seq<Tri>, st: State)
    requires IsEle(opcode)
    ensures var st' := Exec(pf, TripleChain(pf, opcode, ts) + [EleFinal(pf, opcode)], st);
      PointwiseResult(opcode, ts, st.dram, st'.dram) && st'.hpcCleared
  {
    hide PointwiseResult;
    TripleChainPointwise(pf, opcode, ts, st);
    ExecSnoc(pf, TripleChain(pf, opcode, ts), EleFinal(pf, opcode), st);
    StepBarrier(pf, EleFinal(pf, opcode), opcode, 0, Exec(pf, TripleChain(pf, opcode, ts), st));
  }

  /**
   DRAM m' is DRAM m outside the extent of C; inside it, each element whose two source elements lie outside
   the extent is their combination.
   */
  ghost predicate EleElements(pf: Platform, j: Job, opcode: nat, m: Dram, m': Dram) {
    var a, b, c := pf.DevAddr(j.srcA) / 2, pf.DevAddr(j.srcB) / 2, pf.DevAddr(j.dstC) / 2;
    forall y {:trigger m'(y)} ::
      if !(c <= y < c + EleExtent(j)) then m'(y) == m(y)
      else Outside(c, EleExtent(j), a + (y - c)) && Outside(c, EleExtent(j), b + (y - c)) ==>
        m'(y) == EleOp(opcode, m(a + (y - c)), m(b + (y - c)))
  }

  predicate Outside(c: int, len: nat, y: int) {
    !(c <= y < c + len)
  }

  /**
   `elewise`, for every number of rows and columns and wherever the buffers lie: chunks of 512 overlap the
   next row when rows are shorter, but all of them combine the same source elements.
   */
  lemma ElewiseElements(pf: Platform, j: Job, opcode: nat, st: State)
    requires IsEle(opcode) && EleEven(pf, j)
    ensures EleElements(pf, j, opcode, st.dram, Exec(pf, EleChain(pf, j, opcode), st).dram)
    ensures Exec(pf, EleChain(pf, j, opcode), st).hpcCleared
  {
    hide EleTris, Exec, TripleChain, PointwiseResult, EleEven, EleOp;
    EleRun(pf, opcode, EleTris(pf, j), st);
    var m' := Exec(pf, EleChain(pf, j, opcode), st).dram;
    forall y {
      EleElement(pf, j, opcode, st.dram, m', y);
    }
  }

  lemma EleElement(pf: Platform, j: Job, opcode: nat, m: Dram, m': Dram, y: int)
    requires EleEven(pf, j) && PointwiseResult(opcode, EleTris(pf, j), m, m')
    ensures var a, b, c := pf.DevAddr(j.srcA) / 2, pf.DevAddr(j.srcB) / 2, pf.DevAddr(j.dstC) / 2;
      if !(c <= y < c + EleExtent(j)) then m'(y) == m(y)
      else Outside(c, EleExtent(j), a + (y - c)) && Outside(c, EleExtent(j), b + (y - c)) ==>
        m'(y) == EleOp(opcode, m(a + (y - c)), m(b + (y - c)))
  {
    hide EleTris, EleTri, Chunks, Aligned, ElemOffset, EleExtent, EleOp, EleEven, LastWriter, CleanSources;
    var ts := EleTris(pf, j);
    var a, b, c := pf.DevAddr(j.srcA) / 2, pf.DevAddr(j.srcB) / 2, pf.DevAddr(j.dstC) / 2;
    assert ElementResult(opcode, ts, m, m', y);
    var n := LastWriter(ts, y);
    if n >= 0 {
      var p, i := EleTriSplit(pf, j, n);
      EleTriElems(pf, j, p, i);
      if Outside(c, EleExtent(j), a + (y - c)) && Outside(c, EleExtent(j), b + (y - c)) {
        EleClean(pf, j, n, y - ts[n].c / TYPE_SIZE, a + (y - c), b + (y - c));
      }
    } else if c <= y < c + EleExtent(j) {
      var k := EleCovered(pf, j, y - c);
    }
  }

  lemma EleClean(pf: Platform, j: Job, n: nat, x: int, ya: int, yb: int)
    requires EleEven(pf, j) && n < |EleTris(pf, j)|
    requires ya == EleTris(pf, j)[n].a / TYPE_SIZE + x && yb == EleTris(pf, j)[n].b / TYPE_SIZE + x
    requires Outside(pf.DevAddr(j.dstC) / 2, EleExtent(j), ya) && Outside(pf.DevAddr(j.dstC) / 2, EleExtent(j), yb)
    ensures CleanSources(EleTris(pf, j), n, x)
  {
    hide EleTris, EleExtent, EleEven, LastWriter;
    EleUnwritten(pf, j, n, ya);
    EleUnwritten(pf, j, n, yb);
  }

  /** Every element of the aligned rows is the combination of the two source elements at the same offset. */
  ghost predicate EleOutcome(pf: Platform, j: Job, opcode: nat, m: Dram, m': Dram) {
    var a, b, c := pf.DevAddr(j.srcA) / 2, pf.DevAddr(j.srcB) / 2, pf.DevAddr(j.dstC) / 2;
    && (forall d: nat {:trigger m'(c + d)} :: d < EleArea(j) ==> m'(c + d) == EleOp(opcode, m(a + d), m(b + d)))
    && (forall y {:trigger m'(y)} :: !(c <= y < c + EleExtent(j)) ==> m'(y) == m(y))
  }

  /** `elewise` with C clear of the rows of A and B; what lies behind those rows may be anything, even C itself. */
  lemma ElewiseCorrect(pf: Platform, j: Job, opcode: nat, st: State)
    requires IsEle(opcode) && EleBuffers(pf, j)
    ensures EleOutcome(pf, j, opcode, st.dram, Exec(pf, EleChain(pf, j, opcode), st).dram)
    ensures Exec(pf, EleChain(pf, j, opcode), st).hpcCleared
  {
    ElewiseElements(pf, j, opcode, st);
    RowsPast(j.p, j.r);
    hide Exec, EleChain, EleOp, Aligned, Chunks, RowsExtent;
  }

  /** Whole chunks cover the rows, and more than the rows exactly when the row length is no multiple of 512. */
  lemma RowsPast(n: nat, r_size: nat)
    ensures n * r_size <= n * Aligned(r_size) <= RowsExtent(n, r_size)
    ensures n * Aligned(r_size) < RowsExtent(n, r_size) <==> n > 0 && Aligned(r_size) % 512 != 0
    ensures n * r_size < RowsExtent(n, r_size) <==> n > 0 && r_size % 512 != 0
  {
    AlignedBound(r_size);
    AlignedRest(r_size);
    hide Aligned, Chunks;
    if n > 0 {
      assert n * Aligned(r_size) == (n - 1) * Aligned(r_size) + Aligned(r_size);
      assert n * r_size == (n - 1) * r_size + r_size;
      ScaleMono(n, r_size, Aligned(r_size));
      ScaleMono(n - 1, r_size, Aligned(r_size));
    }
  }

  lemma ScaleMono(n: nat, a: nat, b: nat)
    requires a <= b
    ensures n * a <= n * b
  {
    MulMono(a, b, n);
  }

  lemma AlignedRest(r_size: nat)
    ensures Aligned(r_size) == 512 * Chunks(r_size) <==> Aligned(r_size) % 512 == 0
    ensures r_size == 512 * Chunks(r_size) <==> r_size % 512 == 0
    ensures r_size % 512 == 0 ==> Aligned(r_size) == r_size
  {
    AlignedBound(r_size);
    hide Chunks;
  }

  /** Some triple writes an element that is none of the len elements from c on. */
  ghost predicate WritesPast(ts: seq<Tri>, c: int, len: nat) {
    exists n: nat, y: int {:trigger Covers(ts[n], y)} :: n < |ts| && Covers(ts[n], y) && Outside(c, len, y)
  }

  /**
   `elewise` writes past the aligned rows of C exactly when there is a row and its aligned length is no multiple
   of 512, and past a matrix packed without alignment exactly when the length itself is none.
   */
  lemma EleWritesPast(pf: Platform, j: Job)
    requires EleEven(pf, j)
    ensures WritesPast(EleTris(pf, j), pf.DevAddr(j.dstC) / 2, EleArea(j)) <==> j.p > 0 && Aligned(j.r) % 512 != 0
    ensures WritesPast(EleTris(pf, j), pf.DevAddr(j.dstC) / 2, j.p * j.r) <==> j.p > 0 && j.r % 512 != 0
  {
    RowsPast(j.p, j.r);
    hide Aligned, RowsExtent;
    EleWrites(pf, j, EleArea(j));
    EleWrites(pf, j, j.p * j.r);
  }

  lemma EleWrites(pf: Platform, j: Job, len: nat)
    requires EleEven(pf, j)
    ensures WritesPast(EleTris(pf, j), pf.DevAddr(j.dstC) / 2, len) <==> len < EleExtent(j)
  {
    hide EleTris, EleExtent, EleEven, Covers;
    var ts, c := EleTris(pf, j), pf.DevAddr(j.dstC) / 2;
    if len < EleExtent(j) {
      var n := EleCovered(pf, j, len);
      assert Covers(ts[n], c + len);
    }
    forall n: nat, y: int {:trigger Covers(ts[n], y)} | n < |ts| && Covers(ts[n], y) ensures c <= y < c + EleExtent(j) {
      EleInside(pf, j, n, y);
    }
  }

  lemma EleInside(pf: Platform, j: Job, n: nat, y: int)
    requires EleEven(pf, j) && n < |EleTris(pf, j)| && Covers(EleTris(pf, j)[n], y)
    ensures pf.DevAddr(j.dstC) / 2 <= y < pf.DevAddr(j.dstC) / 2 + EleExtent(j)
  {
    hide EleTris, EleTri, Chunks, ElemOffset, EleExtent, EleEven;
    var p, i := EleTriSplit(pf, j, n);
    EleTriElems(pf, j, p, i);
  }
}
