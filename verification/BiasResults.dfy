/**
 What the device computes when it executes the chain of `bias_op`.

 The compiler walks column chunks in its outer loop and rows in its inner one. A chunk is always 512
 elements long, so the last chunk of a row may run over into the next row, after that row's first
 columns were already done. The results below say exactly when that destroys the answer.
 */
module BiasResults {
  import opened Arith
  import opened Machine
  import opened DescMem
  import opened Triples
  import opened Elementwise
  import opened ElementwiseResults

  /** Elements a `bias_op` job touches in its B and C buffers, and those that belong to their aligned rows. */
  function BiasExtent(j: Job): nat { RowsExtent(j.q, j.r) }
  function BiasArea(j: Job): nat { j.q * Aligned(j.r) }

  // ----- the chain, at the addresses it uses

  function ChainA(pf: Platform, j: Job): int { pf.VaToPa(j.srcA) / 2 }
  function ChainB(pf: Platform, j: Job): int { pf.VaToPa(j.srcB) / 2 }
  function ChainC(pf: Platform, j: Job): int { pf.VaToPa(j.dstC) / 2 }

  ghost predicate ChainEven(pf: Platform, j: Job) {
    pf.VaToPa(j.srcA) % 2 == pf.VaToPa(j.srcB) % 2 == pf.VaToPa(j.dstC) % 2 == 0
  }

  /** The number of the triple of chunk i, row q. */
  function TriNo(j: Job, i: nat, q: nat): nat { i * j.q + q }

  lemma BiasTriSplit(pf: Platform, j: Job, n: nat) returns (i: nat, q: nat)
    requires n < |BiasTris(pf, j)|
    ensures i < Chunks(j.r) && q < j.q && n == i * j.q + q && BiasTris(pf, j)[n] == BiasTri(pf, j, q, 512 * i)
  {
    hide BiasTri, Chunks;
    FlatSplit(n, Chunks(j.r), j.q);
    i, q := n / j.q, n % j.q;
  }

  lemma BiasTriElems(pf: Platform, j: Job, i: nat, q: nat)
    requires ChainEven(pf, j) && i < Chunks(j.r) && q < j.q
    ensures ElemOffset(j, q, 512 * i) + ACC_SIZE <= BiasExtent(j)
    ensures BiasTri(pf, j, q, 512 * i).a / 2 == ChainA(pf, j) + 512 * i
    ensures BiasTri(pf, j, q, 512 * i).b / 2 == ChainB(pf, j) + ElemOffset(j, q, 512 * i)
    ensures BiasTri(pf, j, q, 512 * i).c / 2 == ChainC(pf, j) + ElemOffset(j, q, 512 * i)
  {
    hide Chunks, Aligned;
    MulMono(q, j.q - 1, Aligned(j.r));
    assert EleOffset(j, q, 512 * i) == 2 * ElemOffset(j, q, 512 * i);
  }

  lemma BiasInside(pf: Platform, j: Job, n: nat, y: int)
    requires ChainEven(pf, j) && n < |BiasTris(pf, j)| && Covers(BiasTris(pf, j)[n], y)
    ensures !Outside(ChainC(pf, j), BiasExtent(j), y)
  {
    hide BiasTris, BiasTri, Chunks, ElemOffset, BiasExtent, ChainEven;
    var i, q := BiasTriSplit(pf, j, n);
    BiasTriElems(pf, j, i, q);
  }

  /** What lies outside the extent of C is written by no triple. */
  lemma BiasUnwritten(pf: Platform, j: Job, n: nat, y: int)
    requires ChainEven(pf, j) && n <= |BiasTris(pf, j)| && Outside(ChainC(pf, j), BiasExtent(j), y)
    ensures LastWriter(BiasTris(pf, j)[..n], y) < 0
  {
    hide BiasTris, BiasExtent, ChainEven, Outside;
    var k := LastWriter(BiasTris(pf, j)[..n], y);
    if k >= 0 {
      BiasInside(pf, j, k, y);
    }
  }

  lemma BiasFrame(pf: Platform, j: Job, opcode: nat, m: Dram, m': Dram, y: int)
    requires ChainEven(pf, j) && PointwiseResult(opcode, BiasTris(pf, j), m, m')
    requires Outside(ChainC(pf, j), BiasExtent(j), y)
    ensures m'(y) == m(y)
  {
    hide BiasTris, BiasExtent, ChainEven, Outside, CleanSources, TripleValue;
    BiasUnwritten(pf, j, |BiasTris(pf, j)|, y);
    assert BiasTris(pf, j)[..|BiasTris(pf, j)|] == BiasTris(pf, j);
    assert ElementResult(opcode, BiasTris(pf, j), m, m', y);
  }

  /**
   What chunk i of row q leaves in column col, at offset off, if it is the last to write there and C is clear of
   the two sources.
   */
  lemma BiasValue(pf: Platform, j: Job, opcode: nat, m: Dram, m': Dram, i: nat, q: nat, col: nat, off: nat)
    requires ChainEven(pf, j) && PointwiseResult(opcode, BiasTris(pf, j), m, m')
    requires i < Chunks(j.r) && q < j.q && 512 * i <= col < 512 * i + 512 && off == ElemOffset(j, q, col)
    requires LastWriter(BiasTris(pf, j), ChainC(pf, j) + off) == TriNo(j, i, q)
    requires Outside(ChainC(pf, j), BiasExtent(j), ChainA(pf, j) + col)
    requires Outside(ChainC(pf, j), BiasExtent(j), ChainB(pf, j) + off)
    ensures m'(ChainC(pf, j) + off) == EleOp(opcode, m(ChainA(pf, j) + col), m(ChainB(pf, j) + off))
  {
    hide *;
    var n, ts, x := TriNo(j, i, q), BiasTris(pf, j), col - 512 * i;
    BiasPlace(pf, j, i, q, col);
    BiasUnwritten(pf, j, n, ChainA(pf, j) + col);
    BiasUnwritten(pf, j, n, ChainB(pf, j) + off);
    LastValue(opcode, ts, m, m', n, x);
  }

  /** The three addresses of column col in the triple of chunk i, row q. */
  lemma BiasPlace(pf: Platform, j: Job, i: nat, q: nat, col: nat)
    requires ChainEven(pf, j) && i < Chunks(j.r) && q < j.q && 512 * i <= col < 512 * i + 512
    ensures TriNo(j, i, q) < |BiasTris(pf, j)|
    ensures var t, x := BiasTris(pf, j)[TriNo(j, i, q)], col - 512 * i;
      && t.a / TYPE_SIZE + x == ChainA(pf, j) + col
      && t.b / TYPE_SIZE + x == ChainB(pf, j) + ElemOffset(j, q, col)
      && t.c / TYPE_SIZE + x == ChainC(pf, j) + ElemOffset(j, q, col)
  {
    hide BiasTris, BiasTri, Chunks, ElemOffset, BiasExtent, ChainEven, TriNo, ChainA, ChainB, ChainC;
    BiasColumn(j, q, i, col);
    BiasTriNo(pf, j, i, q);
    BiasTriElems(pf, j, i, q);
  }

  lemma BiasTriNo(pf: Platform, j: Job, i: nat, q: nat)
    requires i < Chunks(j.r) && q < j.q
    ensures TriNo(j, i, q) < |BiasTris(pf, j)| && BiasTris(pf, j)[TriNo(j, i, q)] == BiasTri(pf, j, q, 512 * i)
  {
    hide BiasTris, BiasTri, Chunks;
    BiasTriAt(pf, j, i, q);
  }

  lemma BiasColumn(j: Job, q: nat, i: nat, col: nat)
    requires col >= 512 * i
    ensures ElemOffset(j, q, col) == ElemOffset(j, q, 512 * i) + (col - 512 * i)
  {
    hide Aligned;
  }

  /** The condition under which no chunk runs over into columns already done. */
  predicate NoSpill(j: Job) {
    Aligned(j.r) % 512 == 0 || j.r <= 512 || j.q <= 1
  }

  /** Without spill, no chunk after (x / 512, q) covers element (q, x). Pure arithmetic. */
  lemma NoLaterChunk(r: nat, ra: nat, R: nat, Q: nat, q: nat, x: nat, i: nat, k: nat)
    requires x < r <= ra <= 512 * R && q < Q && k < Q && i < R
    requires ra == 512 * R || R <= 1 || Q <= 1
    requires (x / 512) * Q + q < i * Q + k
    ensures !(k * ra + 512 * i <= q * ra + x < k * ra + 512 * i + 512)
  {
    if i < x / 512 {
      RowMajorBound(i, x / 512, k, Q);
    }
    if k > q {
      MulMono(q + 1, k, ra);
      assert (q + 1) * ra == q * ra + ra;
    } else if k < q {
      MulMono(k + 1, q, ra);
      assert (k + 1) * ra == k * ra + ra;
    }
  }

  lemma BiasWriter(pf: Platform, j: Job, q: nat, x: nat)
    requires ChainEven(pf, j) && NoSpill(j) && q < j.q && x < j.r
    ensures x / 512 < Chunks(j.r)
    ensures LastWriter(BiasTris(pf, j), ChainC(pf, j) + ElemOffset(j, q, x)) == TriNo(j, x / 512, q)
  {
    hide BiasTris, BiasTri, Chunks, Aligned, BiasExtent, ChainA, ChainB, ChainC;
    AlignedBound(j.r);
    var R, ts, y := Chunks(j.r), BiasTris(pf, j), ChainC(pf, j) + ElemOffset(j, q, x);
    var n := (x / 512) * j.q + q;
    BiasTriAt(pf, j, x / 512, q);
    BiasTriElems(pf, j, x / 512, q);
    assert Covers(ts[n], y);
    forall k {:trigger ts[k]} | n < k < |ts| ensures !Covers(ts[k], y) {
      var i, q' := BiasTriSplit(pf, j, k);
      BiasTriElems(pf, j, i, q');
      NoLaterChunk(j.r, Aligned(j.r), R, j.q, q, x, i, q');
    }
    LastWriterIs(ts, y, n);
  }

  /** Without spill, element (q, x) is what its own chunk computes, wherever C is clear of its two sources. */
  lemma BiasElement(pf: Platform, j: Job, opcode: nat, m: Dram, m': Dram, q: nat, x: nat)
    requires ChainEven(pf, j) && NoSpill(j) && PointwiseResult(opcode, BiasTris(pf, j), m, m') && q < j.q && x < j.r
    requires Outside(ChainC(pf, j), BiasExtent(j), ChainA(pf, j) + x)
    requires Outside(ChainC(pf, j), BiasExtent(j), ChainB(pf, j) + ElemOffset(j, q, x))
    ensures m'(ChainC(pf, j) + ElemOffset(j, q, x)) ==
      EleOp(opcode, m(ChainA(pf, j) + x), m(ChainB(pf, j) + ElemOffset(j, q, x)))
  {
    hide BiasTris, Chunks, ElemOffset, BiasExtent, EleOp, NoSpill, ChainEven, LastWriter, Outside, PointwiseResult,
         ChainA, ChainB, ChainC, TriNo;
    BiasWriter(pf, j, q, x);
    BiasValue(pf, j, opcode, m, m', x / 512, q, x, ElemOffset(j, q, x));
  }

  // ----- the operation, at the addresses of its buffers

  function BufA(pf: Platform, j: Job): int { pf.DevAddr(j.srcA) / 2 }
  function BufB(pf: Platform, j: Job): int { pf.DevAddr(j.srcB) / 2 }
  function BufC(pf: Platform, j: Job): int { pf.DevAddr(j.dstC) / 2 }

  /** What is written must not overlap the bias values and the rows of B. */
  ghost predicate BiasBuffers(pf: Platform, j: Job) {
    && pf.DevAddr(j.srcA) % 2 == pf.DevAddr(j.srcB) % 2 == pf.DevAddr(j.dstC) % 2 == 0
    && Separate(BufC(pf, j), BiasExtent(j), BufA(pf, j), j.r)
    && Separate(BufC(pf, j), BiasExtent(j), BufB(pf, j), BiasArea(j))
  }

  /** The chunks of bias values are apart from B and C too; only the counterexamples need it. */
  ghost predicate SourcesApart(pf: Platform, j: Job) {
    && Separate(BufA(pf, j), 512 * Chunks(j.r), BufB(pf, j), BiasArea(j))
    && Separate(BufA(pf, j), 512 * Chunks(j.r), BufC(pf, j), BiasExtent(j))
  }

  /**
   Element (q, x) of the result is the x'th bias value combined with element (q, x) of B; nothing outside the
   job's extent changes.
   */
  ghost predicate BiasOutcome(pf: Platform, j: Job, opcode: nat, m: Dram, m': Dram) {
    var a, b, c := BufA(pf, j), BufB(pf, j), BufC(pf, j);
    && (forall q: nat, x: nat {:trigger ElemOffset(j, q, x)} :: q < j.q && x < j.r ==>
          m'(c + ElemOffset(j, q, x)) == EleOp(opcode, m(a + x), m(b + ElemOffset(j, q, x))))
    && (forall y {:trigger m'(y)} :: !(c <= y < c + BiasExtent(j)) ==> m'(y) == m(y))
  }

  ghost predicate BiasRight(pf: Platform, j: Job, opcode: nat, st: State) {
    BiasOutcome(pf, j, opcode, st.dram, Exec(pf, BiasChain(pf, j, opcode), st).dram)
  }

  lemma ElemInArea(j: Job, q: nat, x: nat)
    requires q < j.q && x < j.r
    ensures ElemOffset(j, q, x) < BiasArea(j)
  {
    AlignedBound(j.r);
    RowMajorBound(q, j.q, x, Aligned(j.r));
  }

  /** Without an offset the chain works on the buffers. */
  lemma NoOffset(pf: Platform, j: Job)
    requires BiasBuffers(pf, j) && pf.paOffset == 0
    ensures ChainEven(pf, j) && ChainA(pf, j) == BufA(pf, j) && ChainB(pf, j) == BufB(pf, j) &&
      ChainC(pf, j) == BufC(pf, j)
  {
    hide BiasExtent, BiasArea, Separate;
  }

  lemma WithOffset(pf: Platform, j: Job)
    requires BiasBuffers(pf, j) && pf.paOffset % 2 == 0
    ensures ChainEven(pf, j) && ChainC(pf, j) == BufC(pf, j) + pf.paOffset / 2
  {
    hide BiasExtent, BiasArea, Separate;
  }

  lemma BiasCorrect(pf: Platform, j: Job, opcode: nat, st: State)
    requires IsEle(opcode) && BiasBuffers(pf, j) && pf.paOffset == 0 && NoSpill(j)
    ensures BiasRight(pf, j, opcode, st)
    ensures Exec(pf, BiasChain(pf, j, opcode), st).hpcCleared
  {
    hide BiasTris, Exec, TripleChain, BiasExtent, EleOp, BiasBuffers, NoSpill, PointwiseResult, ElemOffset;
    EleRun(pf, opcode, BiasTris(pf, j), st);
    var m' := Exec(pf, BiasChain(pf, j, opcode), st).dram;
    forall q: nat, x: nat | q < j.q && x < j.r
      ensures m'(BufC(pf, j) + ElemOffset(j, q, x)) ==
        EleOp(opcode, st.dram(BufA(pf, j) + x), st.dram(BufB(pf, j) + ElemOffset(j, q, x)))
    {
      BiasCell(pf, j, opcode, st.dram, m', q, x);
    }
    forall y | !(BufC(pf, j) <= y < BufC(pf, j) + BiasExtent(j)) ensures m'(y) == st.dram(y) {
      BiasElsewhere(pf, j, opcode, st.dram, m', y);
    }
  }

  lemma BiasCell(pf: Platform, j: Job, opcode: nat, m: Dram, m': Dram, q: nat, x: nat)
    requires BiasBuffers(pf, j) && pf.paOffset == 0 && NoSpill(j) && PointwiseResult(opcode, BiasTris(pf, j), m, m')
    requires q < j.q && x < j.r
    ensures m'(BufC(pf, j) + ElemOffset(j, q, x)) ==
      EleOp(opcode, m(BufA(pf, j) + x), m(BufB(pf, j) + ElemOffset(j, q, x)))
  {
    hide *;
    NoOffset(pf, j);
    SourcesOutside(pf, j, q, x);
    BiasElement(pf, j, opcode, m, m', q, x);
  }

  lemma SourcesOutside(pf: Platform, j: Job, q: nat, x: nat)
    requires BiasBuffers(pf, j) && q < j.q && x < j.r
    ensures Outside(BufC(pf, j), BiasExtent(j), BufA(pf, j) + x)
    ensures Outside(BufC(pf, j), BiasExtent(j), BufB(pf, j) + ElemOffset(j, q, x))
  {
    hide ElemOffset, BiasExtent, BiasArea, BufA, BufB, BufC;
    ElemInArea(j, q, x);
  }

  lemma BiasElsewhere(pf: Platform, j: Job, opcode: nat, m: Dram, m': Dram, y: int)
    requires BiasBuffers(pf, j) && pf.paOffset == 0 && PointwiseResult(opcode, BiasTris(pf, j), m, m')
    requires !(BufC(pf, j) <= y < BufC(pf, j) + BiasExtent(j))
    ensures m'(y) == m(y)
  {
    NoOffset(pf, j);
    hide BiasTris, BiasExtent, PointwiseResult, ChainEven, BiasBuffers;
    BiasFrame(pf, j, opcode, m, m', y);
  }

  /** One wrong element makes the outcome wrong. */
  lemma CellWrong(pf: Platform, j: Job, opcode: nat, m: Dram, m': Dram, q: nat, x: nat)
    requires q < j.q && x < j.r
    requires m'(BufC(pf, j) + ElemOffset(j, q, x)) !=
      EleOp(opcode, m(BufA(pf, j) + x), m(BufB(pf, j) + ElemOffset(j, q, x)))
    ensures !BiasOutcome(pf, j, opcode, m, m')
  {
    hide ElemOffset, EleOp, BiasExtent;
  }

  // ----- when it is wrong

  /** A DRAM that is zero but for a one at c. */
  function OneAt(c: int): Dram {
    x => if x == c then 1 else 0
  }

  /** With an address offset the chain writes behind the start of C, and element (0, 0) keeps what it held. */
  lemma OffsetIsWrong(pf: Platform, j: Job, opcode: nat, st: State)
    requires IsEle(opcode) && BiasBuffers(pf, j) && pf.paOffset > 0 && pf.paOffset % 2 == 0 && j.q > 0 && j.r > 0
    requires st.dram == OneAt(BufC(pf, j))
    ensures !BiasRight(pf, j, opcode, st)
  {
    WithOffset(pf, j);
    SomeExtent(j);
    hide BiasTris, Exec, TripleChain, BiasExtent, PointwiseResult, ChainEven, BiasArea, Chunks, Aligned;
    EleRun(pf, opcode, BiasTris(pf, j), st);
    var m' := Exec(pf, BiasChain(pf, j, opcode), st).dram;
    BiasFrame(pf, j, opcode, st.dram, m', BufC(pf, j));
    assert ElemOffset(j, 0, 0) == 0;
    assert EleOp(opcode, 0, 0) == 0;
  }

  lemma SomeExtent(j: Job)
    requires j.q > 0 && j.r > 0
    ensures BiasExtent(j) > 0 && BiasArea(j) > 0
  {
    AlignedBound(j.r);
    RowsPast(j.q, j.r);
    hide Aligned, Chunks, RowsExtent;
    MulMono(1, j.q, Aligned(j.r));
  }

  /** A DRAM that shows the spill: the first bias value is 0, everything else is 1. */
  function SpillDram(a: int): Dram {
    x => if x == a then 0 else 1
  }

  /** With spill, the chunk that finishes row 0 is the last to write element (1, 0), with the wrong bias value. */
  lemma SpillWriter(pf: Platform, j: Job)
    requires ChainEven(pf, j) && !NoSpill(j)
    ensures Chunks(j.r) >= 2 && 512 * (Chunks(j.r) - 1) < Aligned(j.r) < 512 * Chunks(j.r)
    ensures LastWriter(BiasTris(pf, j), ChainC(pf, j) + ElemOffset(j, 1, 0)) == TriNo(j, Chunks(j.r) - 1, 0)
  {
    hide BiasTris, BiasTri, Chunks, Aligned, BiasExtent, ChainA, ChainB, ChainC;
    AlignedBound(j.r);
    var R, ra, ts, y := Chunks(j.r), Aligned(j.r), BiasTris(pf, j), ChainC(pf, j) + ElemOffset(j, 1, 0);
    assert R >= 2;
    var n := (R - 1) * j.q;
    BiasTriAt(pf, j, R - 1, 0);
    BiasTriElems(pf, j, R - 1, 0);
    assert Covers(ts[n], y);
    forall k {:trigger ts[k]} | n < k < |ts| ensures !Covers(ts[k], y) {
      var i, q := BiasTriSplit(pf, j, k);
      BiasTriElems(pf, j, i, q);
      if i < R - 1 {
        RowMajorBound(i, R - 1, q, j.q);
      }
      assert q >= 1;
      MulMono(1, q, ra);
    }
    LastWriterIs(ts, y, n);
  }

  lemma SpillValue(pf: Platform, j: Job, opcode: nat, m: Dram, m': Dram)
    requires BiasBuffers(pf, j) && SourcesApart(pf, j) && pf.paOffset == 0 && !NoSpill(j)
    requires PointwiseResult(opcode, BiasTris(pf, j), m, m') && m == SpillDram(BufA(pf, j))
    ensures m'(BufC(pf, j) + ElemOffset(j, 1, 0)) == EleOp(opcode, 1, 1)
    ensures m(BufA(pf, j)) == 0 && m(BufB(pf, j) + ElemOffset(j, 1, 0)) == 1
  {
    hide *;
    NoOffset(pf, j);
    SpillWriter(pf, j);
    SpillPlace(j);
    SpillOutside(pf, j);
    SpillRead(pf, j, m);
    BiasValue(pf, j, opcode, m, m', Chunks(j.r) - 1, 0, Aligned(j.r), Aligned(j.r));
  }

  lemma SpillOutside(pf: Platform, j: Job)
    requires BiasBuffers(pf, j) && SourcesApart(pf, j) && !NoSpill(j)
    ensures Outside(BufC(pf, j), BiasExtent(j), BufA(pf, j) + Aligned(j.r))
    ensures Outside(BufC(pf, j), BiasExtent(j), BufB(pf, j) + Aligned(j.r))
  {
    SpillPlace(j);
    SpillChunk(j);
    hide Aligned, Chunks, BiasArea, RowsExtent;
  }

  lemma SpillChunk(j: Job)
    requires !NoSpill(j)
    ensures 0 < Aligned(j.r) < 512 * Chunks(j.r)
  {
    AlignedBound(j.r);
    AlignedRest(j.r);
    hide Chunks;
  }

  lemma SpillRead(pf: Platform, j: Job, m: Dram)
    requires BiasBuffers(pf, j) && SourcesApart(pf, j) && !NoSpill(j) && m == SpillDram(BufA(pf, j))
    ensures m(BufA(pf, j)) == 0
    ensures m(BufA(pf, j) + Aligned(j.r)) == 1 && m(BufB(pf, j) + Aligned(j.r)) == 1
  {
    SpillPlace(j);
    SpillChunk(j);
    hide Aligned, Chunks, BiasArea, RowsExtent;
  }

  lemma SpillPlace(j: Job)
    requires !NoSpill(j)
    ensures ElemOffset(j, 1, 0) == Aligned(j.r) < BiasArea(j) && 1 < j.q
    ensures ElemOffset(j, 0, Aligned(j.r)) == Aligned(j.r)
  {
    AlignedBound(j.r);
    hide Aligned, Chunks;
    MulMono(2, j.q, Aligned(j.r));
  }

  lemma SpillIsWrong(pf: Platform, j: Job, opcode: nat, st: State)
    requires IsEle(opcode) && BiasBuffers(pf, j) && SourcesApart(pf, j) && pf.paOffset == 0 && !NoSpill(j)
    requires st.dram == SpillDram(BufA(pf, j))
    ensures !BiasRight(pf, j, opcode, st)
  {
    hide BiasTris, Exec, TripleChain, BiasBuffers, SourcesApart, PointwiseResult, NoSpill, BiasOutcome, ElemOffset,
         EleOp;
    SpillSizes(j);
    EleRun(pf, opcode, BiasTris(pf, j), st);
    var m' := Exec(pf, BiasChain(pf, j, opcode), st).dram;
    SpillValue(pf, j, opcode, st.dram, m');
    OpsDiffer(opcode);
    CellWrong(pf, j, opcode, st.dram, m', 1, 0);
  }

  lemma OpsDiffer(opcode: nat)
    ensures EleOp(opcode, 0, 1) != EleOp(opcode, 1, 1)
  {
  }

  lemma SpillSizes(j: Job)
    requires !NoSpill(j)
    ensures 1 < j.q && 0 < j.r
  {
  }

  /** A job without elements runs no triple. */
  lemma EmptyIsRight(pf: Platform, j: Job, opcode: nat, st: State)
    requires IsEle(opcode) && (j.q == 0 || j.r == 0)
    ensures BiasRight(pf, j, opcode, st)
  {
    ChunkStep(j.r, 0);
    assert BiasTris(pf, j) == [];
    hide Exec, BiasTris;
    EleRun(pf, opcode, BiasTris(pf, j), st);
  }

  /**
   `bias_op` is right on every DRAM exactly when there is nothing to do, or the platform has no address offset
   and no chunk spills into columns already done.
   */
  lemma BiasExact(pf: Platform, j: Job, opcode: nat)
    requires IsEle(opcode) && BiasBuffers(pf, j) && SourcesApart(pf, j) && pf.paOffset >= 0 && pf.paOffset % 2 == 0
    ensures j.q == 0 || j.r == 0 || (pf.paOffset == 0 && NoSpill(j)) <==> forall st: State ::
      BiasRight(pf, j, opcode, st)
  {
    hide BiasRight, NoSpill, BiasBuffers, SourcesApart;
    if j.q == 0 || j.r == 0 {
      forall st: State ensures BiasRight(pf, j, opcode, st) {
        EmptyIsRight(pf, j, opcode, st);
      }
    } else if pf.paOffset > 0 {
      OffsetIsWrong(pf, j, opcode, State(OneAt(BufC(pf, j)), [], [], false));
    } else if NoSpill(j) {
      forall st: State ensures BiasRight(pf, j, opcode, st) {
        BiasCorrect(pf, j, opcode, st);
      }
    } else {
      SpillIsWrong(pf, j, opcode, State(SpillDram(BufA(pf, j)), [], [], false));
    }
  }

  /**
   `bias_op` writes past the aligned rows exactly when there is a row and its aligned length is no multiple of
   512, and past rows packed without alignment exactly when the length itself is none.
   */
  lemma BiasWritesPast(pf: Platform, j: Job)
    requires ChainEven(pf, j)
    ensures WritesPast(BiasTris(pf, j), ChainC(pf, j), BiasArea(j)) <==> j.q > 0 && Aligned(j.r) % 512 != 0
    ensures WritesPast(BiasTris(pf, j), ChainC(pf, j), j.q * j.r) <==> j.q > 0 && j.r % 512 != 0
  {
    RowsPast(j.q, j.r);
    hide Aligned, RowsExtent;
    BiasWrites(pf, j, BiasArea(j));
    BiasWrites(pf, j, j.q * j.r);
  }

  lemma BiasWrites(pf: Platform, j: Job, len: nat)
    requires ChainEven(pf, j)
    ensures WritesPast(BiasTris(pf, j), ChainC(pf, j), len) <==> len < BiasExtent(j)
  {
    hide BiasTris, RowsExtent, ChainEven, Covers, Aligned, Chunks;
    var ts, c := BiasTris(pf, j), ChainC(pf, j);
    if len < BiasExtent(j) {
      var n := BiasCovered(pf, j, len);
      assert Covers(ts[n], c + len);
    }
    forall n: nat, y: int {:trigger Covers(ts[n], y)} | n < |ts| && Covers(ts[n], y)
      ensures c <= y < c + BiasExtent(j)
    {
      BiasInside(pf, j, n, y);
    }
  }

  /** Some chunk covers each element of the extent. */
  lemma BiasCovered(pf: Platform, j: Job, x: nat) returns (n: nat)
    requires ChainEven(pf, j) && x < BiasExtent(j)
    ensures n < |BiasTris(pf, j)| && Covers(BiasTris(pf, j)[n], ChainC(pf, j) + x)
  {
    hide BiasTris, BiasTri, Chunks, Aligned, RowsExtent, ChainEven;
    var q, i := RowsLocate(j.q, j.r, x);
    assert ElemOffset(j, q, 512 * i) == q * Aligned(j.r) + 512 * i;
    BiasTriAt(pf, j, i, q);
    BiasTriElems(pf, j, i, q);
    n := i * j.q + q;
  }
}
