/**
 The compilers `matmul` and `gemm`, with the chains they emit.

 A chain is a run of blocks, one per (row p, 512-column chunk r); block number n stands for
 p == n / R and r == n % R, where R is the trip count of the column loop.
 */
module MatmulChains {
  import opened Arith
  import opened Machine
  import opened DescMem

  /** Trip count of the column loop: (r_size * sizeof(Bfloat16)) / 1024. */
  function ColChunks(j: Job): nat { (j.r * TYPE_SIZE) / 1024 }

  function LoadA(pf: Platform, j: Job, opcode: nat, p: nat, q: nat): Desc {
    Desc(pf.DevAddr(j.srcA + q * TYPE_SIZE + (j.q * TYPE_SIZE) * p), pf.highAddr, PL_DUMMY_PA, 0, 64,
      Info(0x2, opcode, 0))
  }

  function StreamB(pf: Platform, j: Job, opcode: nat, r: nat, q: nat): Desc {
    Desc(pf.DevAddr(j.srcB + j.q * 1024 * r + q * 1024), pf.highAddr, PL_DUMMY_PA, 0, 32 * 1024, Info(0x4, opcode, 0))
  }

  function Barrier(pf: Platform, opcode: nat, config: nat): Desc {
    Desc(pf.ConfMemBase(), pf.highAddr, pf.ConfMemBase() + 1024, pf.highAddr, 1024, Info(0x0, opcode, config))
  }

  function WriteC(pf: Platform, j: Job, opcode: nat, p: nat, r: nat): Desc {
    Desc(pf.ConfMemBase(), pf.highAddr, pf.DevAddr(j.dstC + r * 1024 + p * j.r * TYPE_SIZE), pf.highAddr, 1024,
         Info(0x9, opcode, 0))
  }

  /** The descriptor that ends every chain: it writes the end-of-job marker. */
  function Final(pf: Platform, saHigh: int, opcode: nat, config: nat): Desc {
    Desc(PL_DUMMY_PA, saHigh, pf.HpcClearAddr(), pf.highAddr, 64, Info(0x0, opcode, config))
  }

  /** The first n load/stream pairs of block (p, r), for q == 0, 32, 64, ... */
  function Pairs(pf: Platform, j: Job, opcode: nat, p: nat, r: nat, n: nat): (ds: seq<Desc>)
    ensures |ds| == 2 * n
  {
    if n == 0 then [] else
      Pairs(pf, j, opcode, p, r, n - 1)
      + [LoadA(pf, j, opcode, p, 32 * (n - 1))] + [StreamB(pf, j, opcode, r, 32 * (n - 1))]
  }

  function Block(pf: Platform, j: Job, opcode: nat, p: nat, r: nat): (ds: seq<Desc>)
    ensures |ds| == 2 * Ceil(j.q, 32) + 3
  {
    Pairs(pf, j, opcode, p, r, Ceil(j.q, 32))
    + [Barrier(pf, opcode, 0)] + [WriteC(pf, j, opcode, p, r)] + [Barrier(pf, opcode, 0)]
  }

  function Blocks(pf: Platform, j: Job, opcode: nat, n: nat): (ds: seq<Desc>)
    requires n > 0 ==> ColChunks(j) > 0
    ensures |ds| == BlocksLen(j, n)
  {
    if n == 0 then [] else
      Blocks(pf, j, opcode, n - 1) + Block(pf, j, opcode, (n - 1) / ColChunks(j), (n - 1) % ColChunks(j))
  }

  lemma PairsAppend(pf: Platform, j: Job, opcode: nat, p: nat, r: nat, n: nat, ds: seq<Desc>)
    requires n > 0
    ensures ds + Pairs(pf, j, opcode, p, r, n) ==
      ds + Pairs(pf, j, opcode, p, r, n - 1) + [LoadA(pf, j, opcode, p, 32 * (n - 1))] +
        [StreamB(pf, j, opcode, r, 32 * (n - 1))]
  {
    hide LoadA, StreamB;
  }

  lemma BlockAppend(pf: Platform, j: Job, opcode: nat, p: nat, r: nat, ds: seq<Desc>)
    ensures ds + Block(pf, j, opcode, p, r) ==
      ds + Pairs(pf, j, opcode, p, r, Ceil(j.q, 32))
      + [Barrier(pf, opcode, 0)] + [WriteC(pf, j, opcode, p, r)] + [Barrier(pf, opcode, 0)]
  {
    hide Pairs, Barrier, WriteC;
  }

  function BlocksLen(j: Job, n: nat): nat {
    if n == 0 then 0 else BlocksLen(j, n - 1) + (2 * Ceil(j.q, 32) + 3)
  }

  lemma {:induction false} BlocksLenClosed(j: Job, n: nat)
    ensures BlocksLen(j, n) == n * (2 * Ceil(j.q, 32) + 3)
  {
    if n == 0 {
    } else {
      BlocksLenClosed(j, n - 1);
    }
  }

  lemma {:induction false} BlocksLenMono(j: Job, n: nat, N: nat)
    requires n <= N
    ensures BlocksLen(j, n) <= BlocksLen(j, N)
  {
    if n < N {
      BlocksLenMono(j, n, N - 1);
    }
  }

  function MatmulChain(pf: Platform, j: Job, opcode: nat): (ds: seq<Desc>)
    ensures |ds| == MatmulLen(j) + 1
  {
    Blocks(pf, j, opcode, j.p * ColChunks(j)) + [Final(pf, 0, opcode, 0)]
  }

  /** The length of the `matmul` chain, without its final descriptor. */
  function MatmulLen(j: Job): nat {
    BlocksLen(j, j.p * ColChunks(j))
  }

  lemma BlockIndex(j: Job, p: nat, r: nat)
    requires r < ColChunks(j)
    ensures (p * ColChunks(j) + r) / ColChunks(j) == p && (p * ColChunks(j) + r) % ColChunks(j) == r
    ensures forall P: nat :: p < P ==> p * ColChunks(j) + r + 1 <= P * ColChunks(j)
  {
    DivMod(p, r, ColChunks(j));
    forall P: nat | p < P ensures p * ColChunks(j) + r + 1 <= P * ColChunks(j) {
      RowMajorBound(p, P, r, ColChunks(j));
    }
  }

  lemma NoBlocks(pf: Platform, j: Job, opcode: nat)
    ensures Blocks(pf, j, opcode, 0) == [] && BlocksLen(j, 0) == 0
  {
  }

  lemma LenAt(j: Job, p: nat, r: nat)
    requires p < j.p && r < ColChunks(j)
    ensures BlocksLen(j, p * ColChunks(j) + r + 1) ==
      BlocksLen(j, p * ColChunks(j) + r) + 2 * Ceil(j.q, 32) + 3 <= MatmulLen(j)
  {
    hide ColChunks, Ceil;
    BlockIndex(j, p, r);
    BlocksLenMono(j, p * ColChunks(j) + r + 1, j.p * ColChunks(j));
  }

  /** Appending block (p, r) to the blocks before it. */
  lemma BlockAt(pf: Platform, j: Job, opcode: nat, p: nat, r: nat)
    requires p < j.p && r < ColChunks(j)
    ensures var n := p * ColChunks(j) + r;
      Blocks(pf, j, opcode, n + 1) == Blocks(pf, j, opcode, n) + Block(pf, j, opcode, p, r)
  {
    hide Block, ColChunks;
    BlockIndex(j, p, r);
  }

  /** One block of the first pass: 2 * ceil(q / 32) + 3 status words. */
  method ClearBlock(dev: CdmaDev, ghost w0: seq<int>, q_size: nat, idx: nat) returns (desc_idx: nat)
    requires Cleared(w0, dev.dma_desc[..], idx)
    requires 16 * (idx + 2 * Ceil(q_size, 32) + 3) <= dev.dma_desc.Length
    modifies dev.dma_desc
    ensures desc_idx == idx + 2 * Ceil(q_size, 32) + 3
    ensures Cleared(w0, dev.dma_desc[..], desc_idx)
  {
    desc_idx := idx;
    var q := 0;
    ghost var i: nat := 0;
    CeilStep(q_size, 32, 0);
    while q < q_size
      invariant q == 32 * i && i <= Ceil(q_size, 32) && (i < Ceil(q_size, 32) <==> q < q_size)
      invariant desc_idx == idx + 2 * i
      invariant Cleared(w0, dev.dma_desc[..], desc_idx)
      decreases Ceil(q_size, 32) - i
    {
      dev.ClearStatus(w0, desc_idx);
      desc_idx := desc_idx + 1;
      dev.ClearStatus(w0, desc_idx);
      desc_idx := desc_idx + 1;
      q := q + 32;
      i := i + 1;
      CeilStep(q_size, 32, i);
    }
    dev.ClearStatus(w0, desc_idx);
    desc_idx := desc_idx + 1;
    dev.ClearStatus(w0, desc_idx);
    desc_idx := desc_idx + 1;
    dev.ClearStatus(w0, desc_idx);
    desc_idx := desc_idx + 1;
  }

  /** The first pass of the multiplication phase. */
  method ClearBlocks(dev: CdmaDev, j: Job) returns (desc_idx: nat)
    requires 16 * MatmulLen(j) <= dev.dma_desc.Length
    modifies dev.dma_desc
    ensures desc_idx == MatmulLen(j)
    ensures Cleared(old(dev.dma_desc[..]), dev.dma_desc[..], desc_idx)
  {
    hide Cleared, Blocks, BlocksLen, Ceil;
    ClearedNone(dev.dma_desc[..]);
    NoBlocks(dev.platform, j, 0);
    ghost var w0 := dev.dma_desc[..];
    var r_loop_var := (j.r * TYPE_SIZE) / 1024;
    desc_idx := 0;
    ghost var n: nat := 0;
    var p := 0;
    while p < j.p
      invariant p <= j.p && n == p * r_loop_var && desc_idx == BlocksLen(j, n)
      invariant Cleared(w0, dev.dma_desc[..], desc_idx)
    {
      var r := 0;
      while r < r_loop_var
        invariant r <= r_loop_var && n == p * r_loop_var + r && desc_idx == BlocksLen(j, n)
        invariant Cleared(w0, dev.dma_desc[..], desc_idx)
      {
        LenAt(j, p, r);
        desc_idx := ClearBlock(dev, w0, j.q, desc_idx);
        r, n := r + 1, n + 1;
      }
      p := p + 1;
    }
  }

  /** The second pass for block (p, r): its load/stream pairs, a barrier, the write-back, a barrier. */
  method FillBlock(dev: CdmaDev, ghost w1: seq<int>, ghost ds: seq<Desc>, j: Job, opcode: nat, p: nat, r: nat,
                   idx: nat, next: int)
    returns (desc_idx: nat, next_desc: int)
    requires Filled(w1, dev.dma_desc[..], dev.platform, ds) && idx == |ds|
    requires next == dev.platform.DescMemBase() + 0x40 * (idx + 1)
    requires 16 * (idx + 2 * Ceil(j.q, 32) + 3) <= dev.dma_desc.Length
    modifies dev.dma_desc
    ensures Filled(w1, dev.dma_desc[..], dev.platform, ds + Block(dev.platform, j, opcode, p, r))
    ensures desc_idx == idx + 2 * Ceil(j.q, 32) + 3
    ensures next_desc == dev.platform.DescMemBase() + 0x40 * (desc_idx + 1)
  {
    hide Filled, Pairs, Block, LoadA, StreamB, Barrier, WriteC;
    var pf := dev.platform;
    desc_idx, next_desc := idx, next;
    ghost var cur := ds;
    var q := 0;
    ghost var i: nat := 0;
    CeilStep(j.q, 32, 0);
    while q < j.q
      invariant q == 32 * i && i <= Ceil(j.q, 32) && (i < Ceil(j.q, 32) <==> q < j.q)
      invariant desc_idx == idx + 2 * i && next_desc == pf.DescMemBase() + 0x40 * (desc_idx + 1)
      invariant cur == ds + Pairs(pf, j, opcode, p, r, i)
      invariant Filled(w1, dev.dma_desc[..], pf, cur)
      decreases Ceil(j.q, 32) - i
    {
      dev.WriteDesc(w1, cur, desc_idx, next_desc, LoadA(pf, j, opcode, p, q));
      cur := cur + [LoadA(pf, j, opcode, p, q)];
      desc_idx, next_desc := desc_idx + 1, next_desc + 0x40;
      dev.WriteDesc(w1, cur, desc_idx, next_desc, StreamB(pf, j, opcode, r, q));
      cur := cur + [StreamB(pf, j, opcode, r, q)];
      desc_idx, next_desc := desc_idx + 1, next_desc + 0x40;
      q, i := q + 32, i + 1;
      PairsAppend(pf, j, opcode, p, r, i, ds);
      CeilStep(j.q, 32, i);
    }
    dev.WriteDesc(w1, cur, desc_idx, next_desc, Barrier(pf, opcode, 0));
    cur := cur + [Barrier(pf, opcode, 0)];
    desc_idx, next_desc := desc_idx + 1, next_desc + 0x40;
    dev.WriteDesc(w1, cur, desc_idx, next_desc, WriteC(pf, j, opcode, p, r));
    cur := cur + [WriteC(pf, j, opcode, p, r)];
    desc_idx, next_desc := desc_idx + 1, next_desc + 0x40;
    dev.WriteDesc(w1, cur, desc_idx, next_desc, Barrier(pf, opcode, 0));
    cur := cur + [Barrier(pf, opcode, 0)];
    desc_idx, next_desc := desc_idx + 1, next_desc + 0x40;
    BlockAppend(pf, j, opcode, p, r, ds);
  }

  /** The second pass of the multiplication phase, from descriptor 0. */
  method FillBlocks(dev: CdmaDev, ghost w1: seq<int>, j: Job, opcode: nat) returns (desc_idx: nat, next_desc: int)
    requires Filled(w1, dev.dma_desc[..], dev.platform, [])
    requires 16 * MatmulLen(j) <= dev.dma_desc.Length
    modifies dev.dma_desc
    ensures Filled(w1, dev.dma_desc[..], dev.platform, Blocks(dev.platform, j, opcode, j.p * ColChunks(j)))
    ensures desc_idx == MatmulLen(j) && next_desc == dev.platform.DescMemBase() + 0x40 * (desc_idx + 1)
  {
    hide Filled, Block, Blocks, BlocksLen, Ceil;
    NoBlocks(dev.platform, j, opcode);
    var pf := dev.platform;
    var r_loop_var := (j.r * TYPE_SIZE) / 1024;
    desc_idx, next_desc := 0, pf.DescMemBase() + 0x40;
    ghost var n: nat := 0;
    var p := 0;
    while p < j.p
      invariant p <= j.p && n == p * r_loop_var && desc_idx == BlocksLen(j, n)
      invariant next_desc == pf.DescMemBase() + 0x40 * (desc_idx + 1)
      invariant n > 0 ==> r_loop_var > 0
      invariant Filled(w1, dev.dma_desc[..], pf, Blocks(pf, j, opcode, n))
    {
      var r := 0;
      while r < r_loop_var
        invariant r <= r_loop_var && n == p * r_loop_var + r && desc_idx == BlocksLen(j, n)
        invariant next_desc == pf.DescMemBase() + 0x40 * (desc_idx + 1)
        invariant n > 0 ==> r_loop_var > 0
        invariant Filled(w1, dev.dma_desc[..], pf, Blocks(pf, j, opcode, n))
      {
        LenAt(j, p, r);
        BlockAt(pf, j, opcode, p, r);
        desc_idx, next_desc := FillBlock(dev, w1, Blocks(pf, j, opcode, n), j, opcode, p, r, desc_idx, next_desc);
        r, n := r + 1, n + 1;
      }
      p := p + 1;
    }
  }

  method Matmul(dev: CdmaDev, j: Job, opcode: nat) returns (desc_idx: nat, next_desc: int)
    requires 16 * (MatmulLen(j) + 1) <= dev.dma_desc.Length
    modifies dev`config_reg, dev.dma_desc
    ensures Compiled(old(dev.dma_desc[..]), dev.dma_desc[..], dev.platform, MatmulChain(dev.platform, j, opcode))
    ensures desc_idx == MatmulLen(j) && desc_idx + 1 == |MatmulChain(dev.platform, j, opcode)|
    ensures next_desc == dev.platform.DescMemBase() + 0x40 * (desc_idx + 1)
    ensures Reg(dev.config_reg, CONF_OFFSET_DESC_BASE) == dev.platform.DescMemBase()
    ensures Reg(dev.config_reg, CONF_OFFSET_DESC_BASE) + Reg(dev.config_reg, CONF_OFFSET_DESC_NUM) == next_desc - 0x40
    ensures Reg(dev.config_reg, CONF_OFFSET_HPC_CLR) == 0 && Reg(dev.config_reg, CONF_OFFSET_AIM_WORKING) == 1
    ensures OnlyArming(old(dev.config_reg), dev.config_reg)
  {
    ghost var w0 := dev.dma_desc[..];
    desc_idx := ClearBlocks(dev, j);
    dev.ClearStatus(w0, desc_idx);

    ghost var w1 := dev.dma_desc[..];
    desc_idx, next_desc := FillBlocks(dev, w1, j, opcode);
    ghost var ds := Blocks(dev.platform, j, opcode, j.p * ColChunks(j));
    dev.WriteDesc(w1, ds, desc_idx, next_desc, Final(dev.platform, 0, opcode, 0));
    CompiledByPasses(w0, w1, dev.dma_desc[..], dev.platform, ds + [Final(dev.platform, 0, opcode, 0)]);
    dev.Arm(desc_idx);
  }
}
