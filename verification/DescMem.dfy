/**
 Descriptor memory and the accessors that write it: a flat array of 32-bit words, sixteen to a
 descriptor, of which the driver uses nine.
 */
module DescMem {
  import opened Machine

  const CDMA_NEXT_DE_L: nat := 0x00
  const CDMA_NEXT_DE_H: nat := 0x04
  const CDMA_DESC_SA_L: nat := 0x08
  const CDMA_DESC_SA_H: nat := 0x0C
  const CDMA_DESC_DA_L: nat := 0x10
  const CDMA_DESC_DA_H: nat := 0x14
  const CDMA_DESC_LEN: nat := 0x18
  const CDMA_DESC_STATUS: nat := 0x1C
  const CDMA_DESC_INFO: nat := 0x24

  const CONF_OFFSET_DESC_BASE: nat := 0x0
  const CONF_OFFSET_DESC_NUM: nat := 0x100
  const CONF_OFFSET_AIM_WORKING: nat := 0x4000

  /** A job as user space describes it: buffer addresses and matrix sizes (`ioctl_info`). */
  datatype Job = Job(srcA: int, srcB: int, bias: int, dstC: int, p: nat, q: nat, r: nat)

  function Field(words: seq<int>, i: nat, pos: nat): int {
    At(words, 16 * i + pos / 4)
  }

  function EntryAt(words: seq<int>, i: nat): Desc {
    Desc(Field(words, i, CDMA_DESC_SA_L), Field(words, i, CDMA_DESC_SA_H), Field(words, i, CDMA_DESC_DA_L),
         Field(words, i, CDMA_DESC_DA_H), Field(words, i, CDMA_DESC_LEN), Field(words, i, CDMA_DESC_INFO))
  }

  function NextAt(words: seq<int>, i: nat): int {
    Field(words, i, CDMA_NEXT_DE_L)
  }

  function StatusAt(words: seq<int>, i: nat): int {
    Field(words, i, CDMA_DESC_STATUS)
  }

  /** The payloads of the first n descriptors. */
  function Chain(words: seq<int>, n: nat): (ds: seq<Desc>)
    ensures |ds| == n
  {
    seq(n, i requires 0 <= i < n => EntryAt(words, i))
  }

  /** Each of the first n descriptors links to the one stored right after it. */
  ghost predicate Linked(words: seq<int>, p: Platform, n: nat) {
    forall i: nat {:trigger NextAt(words, i)} :: i < n ==>
      NextAt(words, i) == p.DescMemBase() + 0x40 * (i + 1) && Field(words, i, CDMA_NEXT_DE_H) == p.highAddr
  }

  /** From w0, exactly the status words of the first n descriptors have become zero. */
  ghost predicate Cleared(w0: seq<int>, w: seq<int>, n: nat) {
    && |w| == |w0| && 16 * n <= |w|
    && forall x {:trigger w[x]} :: 0 <= x < |w| ==> w[x] == if x % 16 == 7 && x / 16 < n then 0 else w0[x]
  }

  /** From w0, the first |ds| descriptors have become ds, linked in order; nothing else has changed. */
  ghost predicate Filled(w0: seq<int>, w: seq<int>, p: Platform, ds: seq<Desc>) {
    && |w| == |w0| && 16 * |ds| <= |w|
    && Chain(w, |ds|) == ds
    && Linked(w, p, |ds|)
    && forall x {:trigger w[x]} :: 0 <= x < |w| && (x % 16 == 7 || 16 * |ds| <= x) ==> w[x] == w0[x]
  }

  /** What a compiler leaves in descriptor memory: the chain ds, linked, with every status word clear. */
  ghost predicate Compiled(w0: seq<int>, w: seq<int>, p: Platform, ds: seq<Desc>) {
    && |w| == |w0| && 16 * |ds| <= |w|
    && Chain(w, |ds|) == ds
    && Linked(w, p, |ds|)
    && (forall i: nat {:trigger StatusAt(w, i)} :: i < |ds| ==> StatusAt(w, i) == 0)
    && w[16 * |ds|..] == w0[16 * |ds|..]
  }

  lemma ClearedNone(w: seq<int>)
    ensures Cleared(w, w, 0)
  {
  }

  lemma FilledNone(w: seq<int>, p: Platform)
    ensures Filled(w, w, p, [])
  {
  }

  lemma CompiledByPasses(w0: seq<int>, w1: seq<int>, w: seq<int>, p: Platform, ds: seq<Desc>)
    requires Cleared(w0, w1, |ds|) && Filled(w1, w, p, ds)
    ensures Compiled(w0, w, p, ds)
  {
    forall i: nat | i < |ds| ensures StatusAt(w, i) == 0 {
      var x := 16 * i + 7;
      assert w[x] == w1[x] == 0;
    }
    forall x | 16 * |ds| <= x < |w| ensures w[x] == w0[x] {
      assert w[x] == w1[x] == w0[x];
    }
  }

  /** The configuration register at a byte offset; zero before it is first written. */
  function Reg(regs: map<nat, int>, offset: nat): int {
    if offset / 8 in regs then regs[offset / 8] else 0
  }

  /** Apart from the four registers that arm the device, nothing is written. */
  ghost predicate OnlyArming(regs: map<nat, int>, regs': map<nat, int>) {
    forall offset: nat {:trigger Reg(regs', offset)} ::
      offset / 8 !in {CONF_OFFSET_HPC_CLR / 8, CONF_OFFSET_AIM_WORKING / 8,
                      CONF_OFFSET_DESC_BASE / 8, CONF_OFFSET_DESC_NUM / 8}
      ==> Reg(regs', offset) == Reg(regs, offset)
  }

  class CdmaDev {
    const platform: Platform
    const dma_desc: array<int>
    var config_reg: map<nat, int>

    constructor (p: Platform, mem: array<int>)
      ensures platform == p && dma_desc == mem && config_reg == map[]
    {
      platform := p;
      dma_desc := mem;
      config_reg := map[];
    }

    method DescWrite(offset: nat, pos: nat, value: int)
      requires 16 * offset + pos / 4 < dma_desc.Length
      modifies dma_desc
      ensures dma_desc[..] == old(dma_desc[..])[16 * offset + pos / 4 := value]
    {
      dma_desc[offset * 0x10 + pos / 4] := value;
    }

    method ConfWrite(offset: nat, value: int)
      modifies this`config_reg
      ensures config_reg == old(config_reg)[offset / 8 := value]
    {
      config_reg := config_reg[offset / 8 := value];
    }

    /** Clears one status word; one iteration of a compiler's first pass. */
    method ClearStatus(ghost w0: seq<int>, desc_idx: nat)
      requires Cleared(w0, dma_desc[..], desc_idx)
      requires 16 * (desc_idx + 1) <= dma_desc.Length
      modifies dma_desc
      ensures Cleared(w0, dma_desc[..], desc_idx + 1)
    {
      DescWrite(desc_idx, CDMA_DESC_STATUS, 0);
    }

    /** The eight writes that make one descriptor; none of them disturbs another entry or a status word. */
    method WriteDesc(ghost w0: seq<int>, ghost ds: seq<Desc>, desc_idx: nat, next_desc: int, d: Desc)
      requires Filled(w0, dma_desc[..], platform, ds)
      requires desc_idx == |ds| && 16 * (desc_idx + 1) <= dma_desc.Length
      requires next_desc == platform.DescMemBase() + 0x40 * (desc_idx + 1)
      modifies dma_desc
      ensures Filled(w0, dma_desc[..], platform, ds + [d])
    {
      ghost var w := dma_desc[..];
      DescWrite(desc_idx, CDMA_NEXT_DE_L, next_desc);
      DescWrite(desc_idx, CDMA_NEXT_DE_H, platform.highAddr);
      DescWrite(desc_idx, CDMA_DESC_SA_L, d.sa);
      DescWrite(desc_idx, CDMA_DESC_SA_H, d.saHigh);
      DescWrite(desc_idx, CDMA_DESC_DA_L, d.da);
      DescWrite(desc_idx, CDMA_DESC_DA_H, d.daHigh);
      DescWrite(desc_idx, CDMA_DESC_LEN, d.len);
      DescWrite(desc_idx, CDMA_DESC_INFO, d.info);
      ghost var w' := dma_desc[..];
      FillStep(w0, w, w', platform, ds, d);
    }

    /** Arms the device with the finished chain. */
    method Arm(desc_idx: nat)
      modifies this`config_reg
      ensures Reg(config_reg, CONF_OFFSET_DESC_BASE) == platform.DescMemBase()
      ensures Reg(config_reg, CONF_OFFSET_DESC_NUM) == 0x40 * desc_idx
      ensures Reg(config_reg, CONF_OFFSET_HPC_CLR) == 0 && Reg(config_reg, CONF_OFFSET_AIM_WORKING) == 1
      ensures OnlyArming(old(config_reg), config_reg)
    {
      ConfWrite(CONF_OFFSET_HPC_CLR, 0x0);
      ConfWrite(CONF_OFFSET_AIM_WORKING, 0x1);
      ConfWrite(CONF_OFFSET_DESC_BASE, platform.DescMemBase());
      ConfWrite(CONF_OFFSET_DESC_NUM, desc_idx * 0x40);
    }
  }

  lemma FillStep(w0: seq<int>, w: seq<int>, w': seq<int>, p: Platform, ds: seq<Desc>, d: Desc)
    requires Filled(w0, w, p, ds)
    requires |w'| == |w| && 16 * (|ds| + 1) <= |w|
    requires forall x {:trigger w'[x]} :: 0 <= x < |w| && !(16 * |ds| <= x < 16 * |ds| + 16) ==> w'[x] == w[x]
    requires EntryAt(w', |ds|) == d && w'[16 * |ds| + 7] == w[16 * |ds| + 7]
    requires NextAt(w', |ds|) == p.DescMemBase() + 0x40 * (|ds| + 1) && Field(w', |ds|, CDMA_NEXT_DE_H) == p.highAddr
    ensures Filled(w0, w', p, ds + [d])
  {
    var n := |ds|;
    forall i: nat, pos: nat | i < n && pos < 0x40 ensures Field(w', i, pos) == Field(w, i, pos) {
      assert 0 <= 16 * i + pos / 4 < 16 * n;
    }
    assert forall i: nat :: i < n ==> EntryAt(w', i) == EntryAt(w, i);
    forall i | 0 <= i < n + 1 ensures Chain(w', n + 1)[i] == (ds + [d])[i] {
      if i < n {
        assert Chain(w, n)[i] == ds[i];
      }
    }
    forall i: nat | i < n + 1
      ensures NextAt(w', i) == p.DescMemBase() + 0x40 * (i + 1) && Field(w', i, CDMA_NEXT_DE_H) == p.highAddr
    {
      if i < n {
        assert NextAt(w, i) == p.DescMemBase() + 0x40 * (i + 1);
      }
    }
    forall x | 0 <= x < |w'| && (x % 16 == 7 || 16 * (n + 1) <= x) ensures w'[x] == w0[x] {
      if 16 * n <= x < 16 * n + 16 {
        assert x == 16 * n + 7;
      }
      assert w'[x] == w[x] == w0[x];
    }
  }
}
