/** The compilers `elewise` and `bias_op`, and what the device makes of their chains. */
module Elementwise {
  import opened Arith
  import opened Machine
  import opened DescMem
  import opened Triples

  /** Row stride in elements: r rounded up to a multiple of 32. */
  function Aligned(r_size: nat): nat {
    if r_size % 32 != 0 then (r_size / 32 + 1) * 32 else r_size
  }

  // ----- elewise

  function EleOffset(j: Job, p: nat, r: nat): nat {
    p * Aligned(j.r) * TYPE_SIZE + r * TYPE_SIZE
  }

  function EleTri(pf: Platform, j: Job, p: nat, r: nat): Tri {
    Tri(pf.DevAddr(j.srcA + EleOffset(j, p, r)), pf.DevAddr(j.srcB + EleOffset(j, p, r)),
      pf.DevAddr(j.dstC + EleOffset(j, p, r)))
  }

  /** All triples of the job: row by row, 512 columns at a time. */
  function EleTris(pf: Platform, j: Job): (ts: seq<Tri>)
    ensures |ts| == j.p * Chunks(j.r)
  {
    seq(j.p * Chunks(j.r), n requires 0 <= n < j.p * Chunks(j.r) =>
      FlatSplit(n, j.p, Chunks(j.r)); EleTri(pf, j, n / Chunks(j.r), 512 * (n % Chunks(j.r))))
  }

  lemma EleTriAt(pf: Platform, j: Job, p: nat, i: nat)
    requires p < j.p && i < Chunks(j.r)
    ensures var n, ts := p * Chunks(j.r) + i, EleTris(pf, j);
      n < |ts| && ts[n] == EleTri(pf, j, p, 512 * i) && ts[..n + 1] == ts[..n] + [ts[n]]
  {
    NestIndex(p, j.p, i, Chunks(j.r));
  }

  function EleFinal(pf: Platform, opcode: nat): Desc {
    Desc(PL_DUMMY_PA, pf.highAddr, pf.HpcClearAddr(), pf.highAddr, 64, Info(0x0, opcode, 0))
  }

  function EleChain(pf: Platform, j: Job, opcode: nat): (ds: seq<Desc>)
    ensures |ds| == 3 * (j.p * Chunks(j.r)) + 1
  {
    TripleChain(pf, opcode, EleTris(pf, j)) + [EleFinal(pf, opcode)]
  }

  method Elewise(dev: CdmaDev, j: Job, opcode: nat) returns (desc_idx: nat, next_desc: int)
    requires 16 * |EleChain(dev.platform, j, opcode)| <= dev.dma_desc.Length
    modifies dev`config_reg, dev.dma_desc
    ensures Compiled(old(dev.dma_desc[..]), dev.dma_desc[..], dev.platform, EleChain(dev.platform, j, opcode))
    ensures desc_idx + 1 == |EleChain(dev.platform, j, opcode)|
    ensures next_desc == dev.platform.DescMemBase() + 0x40 * (desc_idx + 1)
    ensures Reg(dev.config_reg, CONF_OFFSET_DESC_BASE) == dev.platform.DescMemBase()
    ensures Reg(dev.config_reg, CONF_OFFSET_DESC_BASE) + Reg(dev.config_reg, CONF_OFFSET_DESC_NUM) == next_desc - 0x40
    ensures Reg(dev.config_reg, CONF_OFFSET_HPC_CLR) == 0 && Reg(dev.config_reg, CONF_OFFSET_AIM_WORKING) == 1
    ensures OnlyArming(old(dev.config_reg), dev.config_reg)
  {
    ghost var w0 := dev.dma_desc[..];
    desc_idx := ClearRows(dev, w0, j.p, j.r, 0);
    dev.ClearStatus(w0, desc_idx);

    ghost var w1 := dev.dma_desc[..];
    desc_idx, next_desc := FillElewise(dev, w1, j, opcode);
    dev.WriteDesc(w1, TripleChain(dev.platform, opcode, EleTris(dev.platform, j)), desc_idx, next_desc,
      EleFinal(dev.platform, opcode));
    CompiledByPasses(w0, w1, dev.dma_desc[..], dev.platform, EleChain(dev.platform, j, opcode));
    dev.Arm(desc_idx);
  }

  method FillElewise(dev: CdmaDev, ghost w1: seq<int>, j: Job, opcode: nat) returns (desc_idx: nat, next_desc: int)
    requires Filled(w1, dev.dma_desc[..], dev.platform, [])
    requires 16 * (3 * (j.p * Chunks(j.r))) <= dev.dma_desc.Length
    modifies dev.dma_desc
    ensures Filled(w1, dev.dma_desc[..], dev.platform, TripleChain(dev.platform, opcode, EleTris(dev.platform, j)))
    ensures desc_idx == 3 * (j.p * Chunks(j.r)) && next_desc == dev.platform.DescMemBase() + 0x40 * (desc_idx + 1)
  {
    hide Filled, EleTri, EleTris, TripleChain, Chunks;
    var pf := dev.platform;
    ghost var R, ts := Chunks(j.r), EleTris(pf, j);
    ghost var n: nat := 0;
    desc_idx, next_desc := 0, pf.DescMemBase() + 0x40;
    NoTriplesAfter(pf, opcode, [], ts);
    var p := 0;
    while p < j.p
      invariant p <= j.p && n == p * R && n <= |ts| && desc_idx == 3 * n
      invariant next_desc == pf.DescMemBase() + 0x40 * (desc_idx + 1)
      invariant Filled(w1, dev.dma_desc[..], pf, [] + TripleChain(pf, opcode, ts[..n]))
    {
      var r := 0;
      ghost var i: nat := 0;
      ChunkStep(j.r, 0);
      while r < j.r
        invariant r == 512 * i && i <= R && (i < R <==> r < j.r)
        invariant n == p * R + i && n <= |ts| && desc_idx == 3 * n
        invariant next_desc == pf.DescMemBase() + 0x40 * (desc_idx + 1)
        invariant Filled(w1, dev.dma_desc[..], pf, [] + TripleChain(pf, opcode, ts[..n]))
        decreases R - i
      {
        EleTriAt(pf, j, p, i);
        desc_idx, next_desc := FillTriple(dev, w1, [], ts[..n], opcode, EleTri(pf, j, p, r), desc_idx, next_desc);
        r, i, n := r + ACC_SIZE, i + 1, n + 1;
        ChunkStep(j.r, i);
      }
      p := p + 1;
    }
    assert ts[..n] == ts;
    assert [] + TripleChain(pf, opcode, ts) == TripleChain(pf, opcode, ts);
  }

  // ----- bias_op

  function BiasTri(pf: Platform, j: Job, q: nat, r: nat): Tri {
    Tri(pf.VaToPa(j.srcA + r * TYPE_SIZE), pf.VaToPa(j.srcB + EleOffset(j, q, r)),
      pf.VaToPa(j.dstC + EleOffset(j, q, r)))
  }

  /** All triples of the job: one 512-column chunk after the other, every row of a chunk in turn. */
  function BiasTris(pf: Platform, j: Job): (ts: seq<Tri>)
    ensures |ts| == Chunks(j.r) * j.q
  {
    seq(Chunks(j.r) * j.q, n requires 0 <= n < Chunks(j.r) * j.q =>
      FlatSplit(n, Chunks(j.r), j.q); BiasTri(pf, j, n % j.q, 512 * (n / j.q)))
  }

  lemma BiasTriAt(pf: Platform, j: Job, i: nat, q: nat)
    requires i < Chunks(j.r) && q < j.q
    ensures var n, ts := i * j.q + q, BiasTris(pf, j);
      n < |ts| && ts[n] == BiasTri(pf, j, q, 512 * i) && ts[..n + 1] == ts[..n] + [ts[n]]
  {
    NestIndex(i, Chunks(j.r), q, j.q);
  }

  function BiasChain(pf: Platform, j: Job, opcode: nat): (ds: seq<Desc>)
    ensures |ds| == 3 * (Chunks(j.r) * j.q) + 1
  {
    TripleChain(pf, opcode, BiasTris(pf, j)) + [EleFinal(pf, opcode)]
  }

  method BiasOp(dev: CdmaDev, j: Job, opcode: nat) returns (desc_idx: nat, next_desc: int)
    requires 16 * |BiasChain(dev.platform, j, opcode)| <= dev.dma_desc.Length
    modifies dev`config_reg, dev.dma_desc
    ensures Compiled(old(dev.dma_desc[..]), dev.dma_desc[..], dev.platform, BiasChain(dev.platform, j, opcode))
    ensures desc_idx + 1 == |BiasChain(dev.platform, j, opcode)|
    ensures next_desc == dev.platform.DescMemBase() + 0x40 * (desc_idx + 1)
    ensures Reg(dev.config_reg, CONF_OFFSET_DESC_BASE) == dev.platform.DescMemBase()
    ensures Reg(dev.config_reg, CONF_OFFSET_DESC_BASE) + Reg(dev.config_reg, CONF_OFFSET_DESC_NUM) == next_desc - 0x40
    ensures Reg(dev.config_reg, CONF_OFFSET_HPC_CLR) == 0 && Reg(dev.config_reg, CONF_OFFSET_AIM_WORKING) == 1
    ensures OnlyArming(old(dev.config_reg), dev.config_reg)
  {
    ghost var w0 := dev.dma_desc[..];
    desc_idx := ClearBias(dev, j);
    dev.ClearStatus(w0, desc_idx);

    ghost var w1 := dev.dma_desc[..];
    desc_idx, next_desc := FillBias(dev, w1, j, opcode);
    dev.WriteDesc(w1, TripleChain(dev.platform, opcode, BiasTris(dev.platform, j)), desc_idx, next_desc,
      EleFinal(dev.platform, opcode));
    CompiledByPasses(w0, w1, dev.dma_desc[..], dev.platform, BiasChain(dev.platform, j, opcode));
    dev.Arm(desc_idx);
  }

  method ClearBias(dev: CdmaDev, j: Job) returns (desc_idx: nat)
    requires 16 * (3 * (Chunks(j.r) * j.q)) <= dev.dma_desc.Length
    modifies dev.dma_desc
    ensures desc_idx == 3 * (Chunks(j.r) * j.q)
    ensures Cleared(old(dev.dma_desc[..]), dev.dma_desc[..], desc_idx)
  {
    ghost var w0, R := dev.dma_desc[..], Chunks(j.r);
    desc_idx := 0;
    var r := 0;
    ghost var i: nat := 0;
    ChunkStep(j.r, 0);
    while r < j.r
      invariant r == 512 * i && i <= R && (i < R <==> r < j.r) && desc_idx == 3 * (i * j.q)
      invariant Cleared(w0, dev.dma_desc[..], desc_idx)
      decreases R - i
    {
      var q := 0;
      while q < j.q
        invariant q <= j.q && desc_idx == 3 * (i * j.q + q)
        invariant Cleared(w0, dev.dma_desc[..], desc_idx)
      {
        NestIndex(i, R, q, j.q);
        desc_idx := ClearTriple(dev, w0, desc_idx);
        q := q + 1;
      }
      r, i := r + ACC_SIZE, i + 1;
      ChunkStep(j.r, i);
    }
  }

  method FillBias(dev: CdmaDev, ghost w1: seq<int>, j: Job, opcode: nat) returns (desc_idx: nat, next_desc: int)
    requires Filled(w1, dev.dma_desc[..], dev.platform, [])
    requires 16 * (3 * (Chunks(j.r) * j.q)) <= dev.dma_desc.Length
    modifies dev.dma_desc
    ensures Filled(w1, dev.dma_desc[..], dev.platform, TripleChain(dev.platform, opcode, BiasTris(dev.platform, j)))
    ensures desc_idx == 3 * (Chunks(j.r) * j.q) && next_desc == dev.platform.DescMemBase() + 0x40 * (desc_idx + 1)
  {
    hide Filled, BiasTri, BiasTris, TripleChain, Chunks;
    var pf := dev.platform;
    ghost var R, ts := Chunks(j.r), BiasTris(pf, j);
    ghost var n: nat := 0;
    desc_idx, next_desc := 0, pf.DescMemBase() + 0x40;
    NoTriplesAfter(pf, opcode, [], ts);
    var r := 0;
    ghost var i: nat := 0;
    ChunkStep(j.r, 0);
    while r < j.r
      invariant r == 512 * i && i <= R && (i < R <==> r < j.r)
      invariant n == i * j.q && n <= |ts| && desc_idx == 3 * n
      invariant next_desc == pf.DescMemBase() + 0x40 * (desc_idx + 1)
      invariant Filled(w1, dev.dma_desc[..], pf, [] + TripleChain(pf, opcode, ts[..n]))
      decreases R - i
    {
      var q := 0;
      while q < j.q
        invariant q <= j.q && n == i * j.q + q && n <= |ts| && desc_idx == 3 * n
        invariant next_desc == pf.DescMemBase() + 0x40 * (desc_idx + 1)
        invariant Filled(w1, dev.dma_desc[..], pf, [] + TripleChain(pf, opcode, ts[..n]))
      {
        BiasTriAt(pf, j, i, q);
        desc_idx, next_desc := FillTriple(dev, w1, [], ts[..n], opcode, BiasTri(pf, j, q, r), desc_idx, next_desc);
        q, n := q + 1, n + 1;
      }
      r, i := r + ACC_SIZE, i + 1;
      ChunkStep(j.r, i);
    }
    assert ts[..n] == ts;
    assert [] + TripleChain(pf, opcode, ts) == TripleChain(pf, opcode, ts);
  }
}
