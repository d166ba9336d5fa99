/** The compiler `gemm`: the multiplication blocks of `matmul`, then an in-place addition of the bias. */
module Gemm {
  import opened Arith
  import opened Machine
  import opened DescMem
  import opened MatmulChains
  import opened Triples
  import opened Elementwise

  /** Latch 512 bias elements, stream the same 512 elements of C, write the sums back over C. */
  function AddTri(pf: Platform, j: Job, p: nat, r: nat): Tri {
    Tri(pf.DevAddr(j.bias + p * j.r * TYPE_SIZE + r * TYPE_SIZE),
        pf.DevAddr(j.dstC + p * j.r * TYPE_SIZE + r * TYPE_SIZE),
        pf.DevAddr(j.dstC + p * j.r * TYPE_SIZE + r * TYPE_SIZE))
  }

  function AddTris(pf: Platform, j: Job): (ts: seq<Tri>)
    ensures |ts| == j.p * Chunks(j.r)
  {
    seq(j.p * Chunks(j.r), n requires 0 <= n < j.p * Chunks(j.r) =>
      FlatSplit(n, j.p, Chunks(j.r)); AddTri(pf, j, n / Chunks(j.r), 512 * (n % Chunks(j.r))))
  }

  lemma AddTriAt(pf: Platform, j: Job, p: nat, i: nat)
    requires p < j.p && i < Chunks(j.r)
    ensures var n, ts := p * Chunks(j.r) + i, AddTris(pf, j);
      n < |ts| && ts[n] == AddTri(pf, j, p, 512 * i) && ts[..n + 1] == ts[..n] + [ts[n]]
  {
    NestIndex(p, j.p, i, Chunks(j.r));
  }

  function GemmChain(pf: Platform, j: Job, opcode: nat): (ds: seq<Desc>)
    ensures |ds| == MatmulLen(j) + 3 * (j.p * Chunks(j.r)) + 1
  {
    Blocks(pf, j, opcode, j.p * ColChunks(j)) + TripleChain(pf, OPCODE_ELE_ADD, AddTris(pf, j)) +
      [EleFinal(pf, OPCODE_ELE_ADD)]
  }

  method GemmCompile(dev: CdmaDev, j: Job, opcode: nat) returns (desc_idx: nat, next_desc: int)
    requires 16 * |GemmChain(dev.platform, j, opcode)| <= dev.dma_desc.Length
    modifies dev`config_reg, dev.dma_desc
    ensures Compiled(old(dev.dma_desc[..]), dev.dma_desc[..], dev.platform, GemmChain(dev.platform, j, opcode))
    ensures desc_idx + 1 == |GemmChain(dev.platform, j, opcode)|
    ensures next_desc == dev.platform.DescMemBase() + 0x40 * (desc_idx + 1)
    ensures Reg(dev.config_reg, CONF_OFFSET_DESC_BASE) == dev.platform.DescMemBase()
    ensures Reg(dev.config_reg, CONF_OFFSET_DESC_BASE) + Reg(dev.config_reg, CONF_OFFSET_DESC_NUM) == next_desc - 0x40
    ensures Reg(dev.config_reg, CONF_OFFSET_HPC_CLR) == 0 && Reg(dev.config_reg, CONF_OFFSET_AIM_WORKING) == 1
    ensures OnlyArming(old(dev.config_reg), dev.config_reg)
  {
    hide Cleared, Filled, Compiled, AddTris, TripleChain, Blocks, MatmulLen, Chunks, EleFinal;
    ghost var w0, pf := dev.dma_desc[..], dev.platform;
    desc_idx := ClearBlocks(dev, j);
    desc_idx := ClearRows(dev, w0, j.p, j.r, desc_idx);
    dev.ClearStatus(w0, desc_idx);

    ghost var w1 := dev.dma_desc[..];
    FilledNone(w1, pf);
    desc_idx, next_desc := FillBlocks(dev, w1, j, opcode);
    ghost var ds := Blocks(pf, j, opcode, j.p * ColChunks(j));
    desc_idx, next_desc := FillAdd(dev, w1, ds, j, desc_idx, next_desc);
    dev.WriteDesc(w1, ds + TripleChain(pf, OPCODE_ELE_ADD, AddTris(pf, j)), desc_idx, next_desc,
      EleFinal(dev.platform, OPCODE_ELE_ADD));
    CompiledByPasses(w0, w1, dev.dma_desc[..], pf, GemmChain(pf, j, opcode));
    dev.Arm(desc_idx);
  }

  /** The second pass of the addition phase, after the descriptors ds. */
  method FillAdd(dev: CdmaDev, ghost w1: seq<int>, ghost ds: seq<Desc>, j: Job, idx: nat, next: int)
    returns (desc_idx: nat, next_desc: int)
    requires Filled(w1, dev.dma_desc[..], dev.platform, ds) && idx == |ds|
    requires 16 * (idx + 3 * (j.p * Chunks(j.r))) <= dev.dma_desc.Length
    requires next == dev.platform.DescMemBase() + 0x40 * (idx + 1)
    modifies dev.dma_desc
    ensures Filled(w1, dev.dma_desc[..], dev.platform,
      ds + TripleChain(dev.platform, OPCODE_ELE_ADD, AddTris(dev.platform, j)))
    ensures desc_idx == idx + 3 * (j.p * Chunks(j.r))
    ensures next_desc == dev.platform.DescMemBase() + 0x40 * (desc_idx + 1)
  {
    hide Filled, AddTri, AddTris, TripleChain, Chunks;
    var pf := dev.platform;
    ghost var R, ts := Chunks(j.r), AddTris(pf, j);
    ghost var n: nat := 0;
    desc_idx, next_desc := idx, next;
    NoTriplesAfter(pf, OPCODE_ELE_ADD, ds, ts);
    var p := 0;
    while p < j.p
      invariant p <= j.p && n == p * R && n <= |ts| && desc_idx == idx + 3 * n
      invariant next_desc == pf.DescMemBase() + 0x40 * (desc_idx + 1)
      invariant Filled(w1, dev.dma_desc[..], pf, ds + TripleChain(pf, OPCODE_ELE_ADD, ts[..n]))
    {
      var r := 0;
      ghost var i: nat := 0;
      ChunkStep(j.r, 0);
      while r < j.r
        invariant r == 512 * i && i <= R && (i < R <==> r < j.r)
        invariant n == p * R + i && n <= |ts| && desc_idx == idx + 3 * n
        invariant next_desc == pf.DescMemBase() + 0x40 * (desc_idx + 1)
        invariant Filled(w1, dev.dma_desc[..], pf, ds + TripleChain(pf, OPCODE_ELE_ADD, ts[..n]))
        decreases R - i
      {
        AddTriAt(pf, j, p, i);
        desc_idx, next_desc := FillTriple(dev, w1, ds, ts[..n], OPCODE_ELE_ADD, AddTri(pf, j, p, r), desc_idx,
          next_desc);
        r, i, n := r + ACC_SIZE, i + 1, n + 1;
        ChunkStep(j.r, i);
      }
      p := p + 1;
    }
    assert ts[..n] == ts;
  }
}
