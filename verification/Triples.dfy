/**
 Elementwise work: chains of latch / stream / write-back triples over 512-element chunks. `elewise`,
 `bias_op` and the second phase of `gemm` emit nothing else.
 */
module Triples {
  import opened Arith
  import opened Machine
  import opened DescMem

  /** The three device addresses of one triple: latched operand, streamed operand, destination. */
  datatype Tri = Tri(a: int, b: int, c: int)

  function Latch(pf: Platform, opcode: nat, t: Tri): Desc {
    Desc(t.a, pf.highAddr, PL_DUMMY_PA, 0, 1024, Info(0x2, opcode, 0))
  }

  function Stream(pf: Platform, opcode: nat, t: Tri): Desc {
    Desc(t.b, pf.highAddr, PL_DUMMY_PA, 0, 1024, Info(0x4, opcode, 0))
  }

  function WriteBack(pf: Platform, opcode: nat, t: Tri): Desc {
    Desc(PL_DUMMY_PA, 0, t.c, pf.highAddr, 1024, Info(0x9, opcode, 0))
  }

  function Triple(pf: Platform, opcode: nat, t: Tri): (ds: seq<Desc>)
    ensures |ds| == 3
  {
    [Latch(pf, opcode, t), Stream(pf, opcode, t), WriteBack(pf, opcode, t)]
  }

  function TripleChain(pf: Platform, opcode: nat, ts: seq<Tri>): (ds: seq<Desc>)
    ensures |ds| == 3 * |ts|
  {
    if ts == [] then [] else TripleChain(pf, opcode, ts[..|ts| - 1]) + Triple(pf, opcode, ts[|ts| - 1])
  }

  lemma TripleAppend(pf: Platform, opcode: nat, ds: seq<Desc>, ts: seq<Tri>, t: Tri)
    ensures ds + TripleChain(pf, opcode, ts + [t]) ==
      ds + TripleChain(pf, opcode, ts) + [Latch(pf, opcode, t)] + [Stream(pf, opcode, t)] + [WriteBack(pf, opcode, t)]
  {
    hide Latch, Stream, WriteBack;
    assert (ts + [t])[..|ts|] == ts;
  }

  lemma NoTriplesAfter(pf: Platform, opcode: nat, ds: seq<Desc>, ts: seq<Tri>)
    ensures ds + TripleChain(pf, opcode, ts[..0]) == ds
  {
  }

  /** Trip count of `for (r = 0; r < r_size; r += 512)`. */
  function Chunks(r_size: nat): nat { Ceil(r_size, ACC_SIZE) }

  lemma ChunkStep(r_size: nat, i: nat)
    ensures i < Chunks(r_size) <==> 512 * i < r_size
  {
    CeilStep(r_size, ACC_SIZE, i);
  }

  /** Triple number o * inner + i of a two-level loop nest. */
  lemma NestIndex(o: nat, outer: nat, i: nat, inner: nat)
    requires o < outer && i < inner
    ensures o * inner + i + 1 <= outer * inner
    ensures (o * inner + i) / inner == o && (o * inner + i) % inner == i
  {
    RowMajorBound(o, outer, i, inner);
    DivMod(o, i, inner);
  }

  method ClearTriple(dev: CdmaDev, ghost w0: seq<int>, idx: nat) returns (desc_idx: nat)
    requires Cleared(w0, dev.dma_desc[..], idx) && 16 * (idx + 3) <= dev.dma_desc.Length
    modifies dev.dma_desc
    ensures desc_idx == idx + 3 && Cleared(w0, dev.dma_desc[..], desc_idx)
  {
    dev.ClearStatus(w0, idx);
    dev.ClearStatus(w0, idx + 1);
    dev.ClearStatus(w0, idx + 2);
    desc_idx := idx + 3;
  }

  /** First pass over a nest of p_size rows of Chunks(r_size) triples, from descriptor idx on. */
  method ClearRows(dev: CdmaDev, ghost w0: seq<int>, p_size: nat, r_size: nat, idx: nat) returns (desc_idx: nat)
    requires Cleared(w0, dev.dma_desc[..], idx)
    requires 16 * (idx + 3 * (p_size * Chunks(r_size))) <= dev.dma_desc.Length
    modifies dev.dma_desc
    ensures desc_idx == idx + 3 * (p_size * Chunks(r_size))
    ensures Cleared(w0, dev.dma_desc[..], desc_idx)
  {
    ghost var R := Chunks(r_size);
    desc_idx := idx;
    var p := 0;
    while p < p_size
      invariant p <= p_size && desc_idx == idx + 3 * (p * R)
      invariant Cleared(w0, dev.dma_desc[..], desc_idx)
    {
      var r := 0;
      ghost var i: nat := 0;
      ChunkStep(r_size, 0);
      while r < r_size
        invariant r == 512 * i && i <= R && (i < R <==> r < r_size) && desc_idx == idx + 3 * (p * R + i)
        invariant Cleared(w0, dev.dma_desc[..], desc_idx)
        decreases R - i
      {
        NestIndex(p, p_size, i, R);
        desc_idx := ClearTriple(dev, w0, desc_idx);
        r, i := r + ACC_SIZE, i + 1;
        ChunkStep(r_size, i);
      }
      p := p + 1;
    }
  }

  /** Second pass for one triple. */
  method FillTriple(dev: CdmaDev, ghost w1: seq<int>, ghost ds: seq<Desc>, ghost ts: seq<Tri>, opcode: nat, t: Tri,
                    idx: nat, next: int)
    returns (desc_idx: nat, next_desc: int)
    requires Filled(w1, dev.dma_desc[..], dev.platform, ds + TripleChain(dev.platform, opcode, ts))
    requires idx == |ds| + 3 * |ts| && 16 * (idx + 3) <= dev.dma_desc.Length
    requires next == dev.platform.DescMemBase() + 0x40 * (idx + 1)
    modifies dev.dma_desc
    ensures Filled(w1, dev.dma_desc[..], dev.platform, ds + TripleChain(dev.platform, opcode, ts + [t]))
    ensures desc_idx == idx + 3 && next_desc == dev.platform.DescMemBase() + 0x40 * (desc_idx + 1)
  {
    hide Filled, Latch, Stream, WriteBack;
    var pf := dev.platform;
    ghost var cur := ds + TripleChain(pf, opcode, ts);
    dev.WriteDesc(w1, cur, idx, next, Latch(pf, opcode, t));
    cur := cur + [Latch(pf, opcode, t)];
    dev.WriteDesc(w1, cur, idx + 1, next + 0x40, Stream(pf, opcode, t));
    cur := cur + [Stream(pf, opcode, t)];
    dev.WriteDesc(w1, cur, idx + 2, next + 0x80, WriteBack(pf, opcode, t));
    cur := cur + [WriteBack(pf, opcode, t)];
    desc_idx, next_desc := idx + 3, next + 0xC0;
    TripleAppend(pf, opcode, ds, ts, t);
  }

  // ----- what a chain of triples computes

  /** The value one triple computes for its x'th element, from the DRAM it runs on. */
  function TripleValue(opcode: nat, m: Dram, t: Tri, x: int): int {
    EleOp(opcode, m(t.a / TYPE_SIZE + x), m(t.b / TYPE_SIZE + x))
  }

  predicate IsEle(opcode: nat) {
    opcode == OPCODE_ELE_ADD || opcode == OPCODE_ELE_SUB || opcode == OPCODE_ELE_MUL
  }

  predicate Covers(t: Tri, y: int) {
    t.c / TYPE_SIZE <= y < t.c / TYPE_SIZE + ACC_SIZE
  }

  ghost predicate TripleResult(opcode: nat, t: Tri, m: Dram, m': Dram) {
    forall y {:trigger m'(y)} :: m'(y) ==
      if Covers(t, y) then TripleValue(opcode, m, t, y - t.c / TYPE_SIZE) else m(y)
  }

  /** One triple overwrites its 512-element destination with the combined operands and nothing else. */
  lemma TripleStep(pf: Platform, opcode: nat, t: Tri, st: State)
    requires IsEle(opcode)
    ensures var st' := Exec(pf, Triple(pf, opcode, t), st);
            TripleResult(opcode, t, st.dram, st'.dram) && st'.acc == ZeroAcc() && st'.hpcCleared == st.hpcCleared
  {
    hide Exec, Step, Combine, Read, TripleValue;
    var ds := Triple(pf, opcode, t);
    ExecThree(pf, ds, st);
    StepLoad(pf, ds[0], opcode, 0, st);
    var st1 := Step(pf, ds[0], st);
    StepStream(pf, ds[1], opcode, 0, st1);
    var st2 := Step(pf, ds[1], st1);
    StepWrite(pf, ds[2], opcode, 0, st2);
    CombineEle(opcode, st.dram, t, st.acc);
  }

  lemma CombineEle(opcode: nat, m: Dram, t: Tri, acc: seq<int>)
    requires IsEle(opcode)
    ensures var r := Combine(opcode, Read(m, t.a / TYPE_SIZE, ACC_SIZE), acc, Read(m, t.b / TYPE_SIZE, ACC_SIZE));
      forall x {:trigger At(r, x)} :: 0 <= x < ACC_SIZE ==> At(r, x) == TripleValue(opcode, m, t, x)
  {
  }

  lemma ExecThree(pf: Platform, ds: seq<Desc>, st: State)
    requires |ds| == 3
    ensures Exec(pf, ds, st) == Step(pf, ds[2], Step(pf, ds[1], Step(pf, ds[0], st)))
  {
    assert ds[..2][..1] == ds[..1] && ds[..1][..0] == [];
    assert Exec(pf, ds[..1], st) == Step(pf, ds[0], st);
    assert Exec(pf, ds[..2], st) == Step(pf, ds[1], Exec(pf, ds[..1], st));
  }

  /** The number of the triple that writes element y last, or -1 when none does. */
  function LastWriter(ts: seq<Tri>, y: int): (n: int)
    ensures -1 <= n < |ts|
    ensures n >= 0 ==> Covers(ts[n], y)
    ensures forall k {:trigger ts[k]} :: n < k < |ts| ==> !Covers(ts[k], y)
  {
    if ts == [] then -1
    else if Covers(ts[|ts| - 1], y) then |ts| - 1
    else LastWriter(ts[..|ts| - 1], y)
  }

  /** A named covering triple that no later triple covers again is the last writer. */
  lemma LastWriterIs(ts: seq<Tri>, y: int, n: nat)
    requires n < |ts| && Covers(ts[n], y)
    requires forall k {:trigger ts[k]} :: n < k < |ts| ==> !Covers(ts[k], y)
    ensures LastWriter(ts, y) == n
  {
    var l := LastWriter(ts, y);
    assert l >= 0 ==> Covers(ts[l], y);
  }

  /** The la elements at a and the lb elements at b do not overlap. */
  predicate Separate(a: int, la: nat, b: int, lb: nat) {
    a + la <= b || b + lb <= a
  }

  predicate Apart(a: int, b: int, len: nat) {
    Separate(a, len, b, len)
  }

  /** No triple reads a chunk that an earlier triple wrote; it may well write over what it reads itself. */
  ghost predicate NoFeedback(ts: seq<Tri>) {
    forall i, k {:trigger ts[i], ts[k]} :: 0 <= i < k < |ts| ==>
      Apart(ts[i].c / TYPE_SIZE, ts[k].a / TYPE_SIZE, ACC_SIZE) &&
        Apart(ts[i].c / TYPE_SIZE, ts[k].b / TYPE_SIZE, ACC_SIZE)
  }

  /** No triple before triple n writes what it reads for its x'th element. */
  predicate CleanSources(ts: seq<Tri>, n: nat, x: int)
    requires n < |ts|
  {
    && LastWriter(ts[..n], ts[n].a / TYPE_SIZE + x) < 0
    && LastWriter(ts[..n], ts[n].b / TYPE_SIZE + x) < 0
  }

  /**
   Element y: as before if nobody writes it, and as its last writer computes it from DRAM m if that has clean
   sources.
   */
  ghost predicate ElementResult(opcode: nat, ts: seq<Tri>, m: Dram, m': Dram, y: int) {
    var n := LastWriter(ts, y);
    && (n < 0 ==> m'(y) == m(y))
    && (n >= 0 && CleanSources(ts, n, y - ts[n].c / TYPE_SIZE) ==>
          m'(y) == TripleValue(opcode, m, ts[n], y - ts[n].c / TYPE_SIZE))
  }

  /** DRAM m' is what the triples ts make of DRAM m. */
  ghost predicate PointwiseResult(opcode: nat, ts: seq<Tri>, m: Dram, m': Dram) {
    forall y {:trigger m'(y)} {:trigger ElementResult(opcode, ts, m, m', y)} :: ElementResult(opcode, ts, m, m', y)
  }

  /** Last-writer theorem, for every chain of triples and without any condition on what they read and write. */
  lemma {:induction false} TripleChainPointwise(pf: Platform, opcode: nat, ts: seq<Tri>, st: State)
    requires IsEle(opcode)
    ensures var st' := Exec(pf, TripleChain(pf, opcode, ts), st);
            && PointwiseResult(opcode, ts, st.dram, st'.dram)
            && st'.hpcCleared == st.hpcCleared
            && (if ts == [] then st' == st else st'.acc == ZeroAcc())
  {
    if ts == [] {
    } else {
      hide Triple, PointwiseResult, TripleResult;
      var init, t := ts[..|ts| - 1], ts[|ts| - 1];
      TripleChainPointwise(pf, opcode, init, st);
      ExecConcat(pf, TripleChain(pf, opcode, init), Triple(pf, opcode, t), st);
      var st1 := Exec(pf, TripleChain(pf, opcode, init), st);
      TripleStep(pf, opcode, t, st1);
      PointwiseStep(opcode, ts, st.dram, st1.dram, Exec(pf, Triple(pf, opcode, t), st1).dram);
    }
  }

  lemma PointwiseStep(opcode: nat, ts: seq<Tri>, m: Dram, m1: Dram, m2: Dram)
    requires ts != []
    requires PointwiseResult(opcode, ts[..|ts| - 1], m, m1) && TripleResult(opcode, ts[|ts| - 1], m1, m2)
    ensures PointwiseResult(opcode, ts, m, m2)
  {
    forall y ensures ElementResult(opcode, ts, m, m2, y) {
      hide PointwiseResult, ElementResult, TripleResult;
      if Covers(ts[|ts| - 1], y) {
        WrittenLast(opcode, ts, m, m1, m2, y);
      } else {
        WrittenEarlier(opcode, ts, m, m1, m2, y);
      }
    }
  }

  lemma WrittenLast(opcode: nat, ts: seq<Tri>, m: Dram, m1: Dram, m2: Dram, y: int)
    requires ts != [] && Covers(ts[|ts| - 1], y)
    requires PointwiseResult(opcode, ts[..|ts| - 1], m, m1) && TripleResult(opcode, ts[|ts| - 1], m1, m2)
    ensures ElementResult(opcode, ts, m, m2, y)
  {
    var init, t := ts[..|ts| - 1], ts[|ts| - 1];
    var x := y - t.c / TYPE_SIZE;
    assert LastWriter(ts, y) == |ts| - 1;
    hide LastWriter;
    if CleanSources(ts, |ts| - 1, x) {
      assert m1(t.a / TYPE_SIZE + x) == m(t.a / TYPE_SIZE + x);
      assert m1(t.b / TYPE_SIZE + x) == m(t.b / TYPE_SIZE + x);
    }
  }

  lemma WrittenEarlier(opcode: nat, ts: seq<Tri>, m: Dram, m1: Dram, m2: Dram, y: int)
    requires ts != [] && !Covers(ts[|ts| - 1], y)
    requires PointwiseResult(opcode, ts[..|ts| - 1], m, m1) && TripleResult(opcode, ts[|ts| - 1], m1, m2)
    ensures ElementResult(opcode, ts, m, m2, y)
  {
    var init := ts[..|ts| - 1];
    assert LastWriter(ts, y) == LastWriter(init, y);
    hide LastWriter;
    var n := LastWriter(init, y);
    assert m2(y) == m1(y);
    assert n >= 0 ==> ts[..n] == init[..n] && ts[n] == init[n];
  }

  /** The element a triple with clean sources is the last to write. */
  lemma LastValue(opcode: nat, ts: seq<Tri>, m: Dram, m': Dram, n: nat, x: int)
    requires PointwiseResult(opcode, ts, m, m') && n < |ts| && LastWriter(ts, ts[n].c / TYPE_SIZE + x) == n
    requires LastWriter(ts[..n], ts[n].a / TYPE_SIZE + x) < 0 && LastWriter(ts[..n], ts[n].b / TYPE_SIZE + x) < 0
    ensures m'(ts[n].c / TYPE_SIZE + x) == EleOp(opcode, m(ts[n].a / TYPE_SIZE + x), m(ts[n].b / TYPE_SIZE + x))
  {
    hide LastWriter, EleOp;
    assert ElementResult(opcode, ts, m, m', ts[n].c / TYPE_SIZE + x);
  }

  /** DRAM m' is what the triples ts make of DRAM m, each element as its last writer computes it from m. */
  ghost predicate LastWriterResult(opcode: nat, ts: seq<Tri>, m: Dram, m': Dram) {
    forall y {:trigger m'(y)} :: m'(y) ==
      var n := LastWriter(ts, y);
      if n < 0 then m(y) else TripleValue(opcode, m, ts[n], y - ts[n].c / TYPE_SIZE)
  }

  /** Without feedback each element ends as its last writer computes it from the initial DRAM. */
  lemma TripleChainResult(pf: Platform, opcode: nat, ts: seq<Tri>, st: State)
    requires IsEle(opcode) && NoFeedback(ts)
    ensures var st' := Exec(pf, TripleChain(pf, opcode, ts), st);
            && LastWriterResult(opcode, ts, st.dram, st'.dram)
            && st'.hpcCleared == st.hpcCleared
            && (if ts == [] then st' == st else st'.acc == ZeroAcc())
  {
    hide Exec, TripleChain, NoFeedback, TripleValue, CleanSources, LastWriter;
    TripleChainPointwise(pf, opcode, ts, st);
    var m' := Exec(pf, TripleChain(pf, opcode, ts), st).dram;
    forall y
      ensures m'(y) ==
        var n := LastWriter(ts, y);
        if n < 0 then st.dram(y) else TripleValue(opcode, st.dram, ts[n], y - ts[n].c / TYPE_SIZE)
    {
      var n := LastWriter(ts, y);
      if n >= 0 {
        NoFeedbackClean(ts, n, y - ts[n].c / TYPE_SIZE);
      }
    }
  }

  lemma NoFeedbackClean(ts: seq<Tri>, n: nat, x: int)
    requires NoFeedback(ts) && n < |ts| && 0 <= x < ACC_SIZE
    ensures CleanSources(ts, n, x)
  {
    assert forall k :: 0 <= k < n ==> ts[..n][k] == ts[k];
  }
}
