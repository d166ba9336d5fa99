/**
 The compiler `matmul_decoupled`, with the chain it emits.

 Rows are cut into tiles of 32 (the last one may be lower), columns into groups of 16 banks, the inner
 dimension into steps of 32. Block number n stands for row tile n / R and column group n % R. The
 addresses come from running counters, two of them taken modulo a matrix size.
 */
module Decoupled {
  import opened Arith
  import opened Machine
  import opened DescMem
  import opened MatmulChains

  function RowTiles(j: Job): nat { Ceil(j.p, REG_SIZE) }
  function BankGroups(j: Job): nat { Ceil(j.r, NUM_BANKS) }
  function Steps(j: Job): nat { Ceil(j.q, REG_SIZE) }

  /** The number of rows rounded up to whole groups of eight (A_ROW_PAD). */
  function RowPad(j: Job): nat { (j.p + COMPUTE_WAY - 1) / COMPUTE_WAY * COMPUTE_WAY }

  /** Rows of the tile that starts at row p (p_size_tile). */
  function TileRows(j: Job, p: nat): nat {
    if p + REG_SIZE > RowPad(j) then RowPad(j) - j.p / REG_SIZE * REG_SIZE else REG_SIZE
  }

  /** The configuration field the tile that starts at row p is sent with. */
  function TileConfig(j: Job, p: nat): nat {
    if p + REG_SIZE > RowPad(j) then
      match TileRows(j, p)
      case 16 => 1
      case 24 => 2
      case 32 => 3
      case _ => 0
    else 0
  }

  /** Row counts that are no multiple of 32 run in 8x4 mode. */
  function Mode(j: Job, opcode: nat): nat {
    if j.p % REG_SIZE != 0 then OPCODE_MAT_MUL_DECOUPLED_8x4 else opcode
  }

  /** Loads the next 512 weights; the counter runs over B again and again. */
  function LoadWeights(pf: Platform, j: Job, opcode: nat, config: nat, cnt_B: nat): Desc {
    var size := j.q * j.r;
    Desc(pf.DevAddr(j.srcB + (if size == 0 then 0 else cnt_B % size) * TYPE_SIZE), pf.highAddr, PL_DUMMY_PA, 0,
         REG_SIZE * NUM_BANKS * TYPE_SIZE, Info(0x2, opcode, config))
  }

  /** Streams the next h by 32 panel of the row tile that starts at row p. */
  function StreamPanel(pf: Platform, j: Job, opcode: nat, config: nat, p: nat, h: nat, cnt_A: nat): Desc {
    var size := j.p * j.q;
    Desc(pf.DevAddr(j.srcA + (if size == 0 then 0 else (p * j.q + cnt_A) % size) * TYPE_SIZE), pf.highAddr,
      PL_DUMMY_PA, 0,
         REG_SIZE * h * TYPE_SIZE, Info(0x4, opcode, config))
  }

  function WriteTile(pf: Platform, j: Job, opcode: nat, config: nat, cnt_C: nat): Desc {
    Desc(PL_DUMMY_PA, 0, pf.DevAddr(j.dstC + cnt_C * TYPE_SIZE), pf.highAddr,
         REG_SIZE * NUM_BANKS * TYPE_SIZE, Info(0x9, opcode, config))
  }

  /** The first k load/stream pairs of block n, in row tile t. */
  function TilePairs(pf: Platform, j: Job, opcode: nat, t: nat, n: nat, k: nat): (ds: seq<Desc>)
    ensures |ds| == 2 * k
  {
    if k == 0 then [] else
      TilePairs(pf, j, opcode, t, n, k - 1)
      + [LoadWeights(pf, j, opcode, TileConfig(j, 32 * t), 512 * (n * Steps(j) + (k - 1)))]
      + [StreamPanel(pf, j, opcode, TileConfig(j, 32 * t), 32 * t, TileRows(j, 32 * t),
        (k - 1) * (32 * TileRows(j, 32 * t)))]
  }

  function TileBlock(pf: Platform, j: Job, opcode: nat, t: nat, n: nat): (ds: seq<Desc>)
    ensures |ds| == 2 * Ceil(j.q, 32) + 3
  {
    TilePairs(pf, j, opcode, t, n, Steps(j))
    + [Barrier(pf, opcode, TileConfig(j, 32 * t))]
    + [WriteTile(pf, j, opcode, TileConfig(j, 32 * t), 512 * n)]
    + [Barrier(pf, opcode, TileConfig(j, 32 * t))]
  }

  function TileBlocks(pf: Platform, j: Job, opcode: nat, n: nat): (ds: seq<Desc>)
    requires n > 0 ==> BankGroups(j) > 0
    ensures |ds| == BlocksLen(j, n)
  {
    if n == 0 then [] else
      TileBlocks(pf, j, opcode, n - 1) + TileBlock(pf, j, opcode, (n - 1) / BankGroups(j), n - 1)
  }

  function NumTileBlocks(j: Job): nat { RowTiles(j) * BankGroups(j) }

  function TileNo(j: Job, t: nat, g: nat): nat { t * BankGroups(j) + g }

  /** The configuration the loop ends with, which the final descriptor carries. */
  function LastConfig(j: Job): nat {
    if RowTiles(j) == 0 then 0 else TileConfig(j, 32 * (RowTiles(j) - 1))
  }

  function DecoupledChain(pf: Platform, j: Job, opcode: nat): (ds: seq<Desc>)
    ensures |ds| == BlocksLen(j, NumTileBlocks(j)) + 1
  {
    TileBlocks(pf, j, Mode(j, opcode), NumTileBlocks(j)) + [Final(pf, 0, Mode(j, opcode), LastConfig(j))]
  }

  // ----- steps of the loop nest

  lemma TileIndex(j: Job, t: nat, g: nat)
    requires t < RowTiles(j) && g < BankGroups(j)
    ensures TileNo(j, t, g) + 1 <= NumTileBlocks(j)
    ensures TileNo(j, t, g) / BankGroups(j) == t
    ensures BlocksLen(j, TileNo(j, t, g) + 1) == BlocksLen(j, TileNo(j, t, g)) + 2 * Ceil(j.q, 32) + 3
    ensures BlocksLen(j, TileNo(j, t, g) + 1) <= BlocksLen(j, NumTileBlocks(j))
  {
    hide BankGroups, RowTiles, Ceil;
    RowMajorBound(t, RowTiles(j), g, BankGroups(j));
    DivMod(t, g, BankGroups(j));
    BlocksLenMono(j, TileNo(j, t, g) + 1, NumTileBlocks(j));
  }

  lemma TileBlockAt(pf: Platform, j: Job, opcode: nat, t: nat, g: nat)
    requires t < RowTiles(j) && g < BankGroups(j)
    ensures TileBlocks(pf, j, opcode, TileNo(j, t, g) + 1) ==
      TileBlocks(pf, j, opcode, TileNo(j, t, g)) + TileBlock(pf, j, opcode, t, TileNo(j, t, g))
  {
    hide TileBlock, BankGroups, RowTiles, TileNo;
    TileIndex(j, t, g);
  }

  lemma NoTileBlocks(pf: Platform, j: Job, opcode: nat)
    ensures TileBlocks(pf, j, opcode, 0) == [] && BlocksLen(j, 0) == 0
  {
  }

  lemma TilePairsAppend(pf: Platform, j: Job, opcode: nat, t: nat, n: nat, k: nat, ds: seq<Desc>)
    requires k > 0
    ensures ds + TilePairs(pf, j, opcode, t, n, k) == ds + TilePairs(pf, j, opcode, t, n, k - 1)
      + [LoadWeights(pf, j, opcode, TileConfig(j, 32 * t), 512 * (n * Steps(j) + (k - 1)))]
      + [StreamPanel(pf, j, opcode, TileConfig(j, 32 * t), 32 * t, TileRows(j, 32 * t),
        (k - 1) * (32 * TileRows(j, 32 * t)))]
  {
    hide LoadWeights, StreamPanel, TileConfig, TileRows, Steps;
  }

  lemma TileBlockAppend(pf: Platform, j: Job, opcode: nat, t: nat, n: nat, ds: seq<Desc>)
    ensures ds + TileBlock(pf, j, opcode, t, n) == ds + TilePairs(pf, j, opcode, t, n, Steps(j))
      + [Barrier(pf, opcode, TileConfig(j, 32 * t))] + [WriteTile(pf, j, opcode, TileConfig(j, 32 * t), 512 * n)]
      + [Barrier(pf, opcode, TileConfig(j, 32 * t))]
  {
    hide TilePairs, Barrier, WriteTile, TileConfig, Steps;
  }

  /** First pass. */
  method ClearTiles(dev: CdmaDev, j: Job) returns (desc_idx: nat)
    requires 16 * BlocksLen(j, NumTileBlocks(j)) <= dev.dma_desc.Length
    modifies dev.dma_desc
    ensures desc_idx == BlocksLen(j, NumTileBlocks(j))
    ensures Cleared(old(dev.dma_desc[..]), dev.dma_desc[..], desc_idx)
  {
    hide Cleared, BlocksLen, RowTiles, BankGroups;
    ClearedNone(dev.dma_desc[..]);
    NoTileBlocks(dev.platform, j, 0);
    ghost var w0 := dev.dma_desc[..];
    desc_idx := 0;
    var p := 0;
    ghost var t: nat := 0;
    TileStep(j, 0);
    while p < j.p
      invariant p == 32 * t && t <= RowTiles(j) && (t < RowTiles(j) <==> p < j.p)
      invariant desc_idx == BlocksLen(j, TileNo(j, t, 0))
      invariant Cleared(w0, dev.dma_desc[..], desc_idx)
      decreases RowTiles(j) - t
    {
      var r := 0;
      ghost var g: nat := 0;
      GroupStep(j, 0);
      while r < j.r
        invariant r == 16 * g && g <= BankGroups(j) && (g < BankGroups(j) <==> r < j.r)
        invariant desc_idx == BlocksLen(j, TileNo(j, t, g))
        invariant Cleared(w0, dev.dma_desc[..], desc_idx)
        decreases BankGroups(j) - g
      {
        TileIndex(j, t, g);
        desc_idx := ClearBlock(dev, w0, j.q, desc_idx);
        r, g := r + NUM_BANKS, g + 1;
        GroupStep(j, g);
      }
      p, t := p + REG_SIZE, t + 1;
      TileStep(j, t);
    }
  }

  lemma TileStep(j: Job, t: nat)
    ensures t < RowTiles(j) <==> 32 * t < j.p
  {
    CeilStep(j.p, REG_SIZE, t);
  }

  lemma GroupStep(j: Job, g: nat)
    ensures g < BankGroups(j) <==> 16 * g < j.r
  {
    CeilStep(j.r, NUM_BANKS, g);
  }

  lemma StepStep(j: Job, k: nat)
    ensures k < Steps(j) <==> 32 * k < j.q
  {
    CeilStep(j.q, REG_SIZE, k);
  }

  /** Second pass for block n of row tile t. */
  method FillTile(dev: CdmaDev, ghost w1: seq<int>, ghost ds: seq<Desc>, j: Job, opcode: nat, config: nat,
                  p: nat, p_size_tile: nat, ghost t: nat, ghost n: nat, cntB: nat, cnt_C: nat, idx: nat, next: int)
    returns (desc_idx: nat, next_desc: int, cnt_B: nat)
    requires Filled(w1, dev.dma_desc[..], dev.platform, ds) && idx == |ds|
    requires next == dev.platform.DescMemBase() + 0x40 * (idx + 1)
    requires 16 * (idx + 2 * Ceil(j.q, 32) + 3) <= dev.dma_desc.Length
    requires p == 32 * t && config == TileConfig(j, p) && p_size_tile == TileRows(j, p)
    requires cntB == 512 * (n * Steps(j)) && cnt_C == 512 * n
    modifies dev.dma_desc
    ensures Filled(w1, dev.dma_desc[..], dev.platform, ds + TileBlock(dev.platform, j, opcode, t, n))
    ensures desc_idx == idx + 2 * Ceil(j.q, 32) + 3 && next_desc == dev.platform.DescMemBase() + 0x40 * (desc_idx + 1)
    ensures cnt_B == 512 * (n * Steps(j) + Steps(j))
  {
    hide Filled, TilePairs, TileBlock, LoadWeights, StreamPanel, Barrier, WriteTile, TileConfig, TileRows, Ceil;
    var pf := dev.platform;
    desc_idx, next_desc, cnt_B := idx, next, cntB;
    ghost var cur := ds;
    var cnt_A := 0;
    var q := 0;
    ghost var k: nat := 0;
    StepStep(j, 0);
    NoTilePairs(pf, j, opcode, t, n, ds);
    while q < j.q
      invariant q == 32 * k && k <= Steps(j) && (k < Steps(j) <==> q < j.q)
      invariant cnt_A == k * (32 * p_size_tile) && cnt_B == 512 * (n * Steps(j) + k)
      invariant desc_idx == idx + 2 * k && next_desc == pf.DescMemBase() + 0x40 * (desc_idx + 1)
      invariant cur == ds + TilePairs(pf, j, opcode, t, n, k)
      invariant Filled(w1, dev.dma_desc[..], pf, cur)
      decreases Steps(j) - k
    {
      TilePairsAppend(pf, j, opcode, t, n, k + 1, ds);
      dev.WriteDesc(w1, cur, desc_idx, next_desc, LoadWeights(pf, j, opcode, config, cnt_B));
      cur := cur + [LoadWeights(pf, j, opcode, config, cnt_B)];
      cnt_B := cnt_B + 512;
      desc_idx, next_desc := desc_idx + 1, next_desc + 0x40;
      dev.WriteDesc(w1, cur, desc_idx, next_desc, StreamPanel(pf, j, opcode, config, p, p_size_tile, cnt_A));
      cur := cur + [StreamPanel(pf, j, opcode, config, p, p_size_tile, cnt_A)];
      assert (k + 1) * (32 * p_size_tile) == k * (32 * p_size_tile) + 32 * p_size_tile;
      cnt_A := cnt_A + REG_SIZE * p_size_tile;
      desc_idx, next_desc := desc_idx + 1, next_desc + 0x40;
      q, k := q + REG_SIZE, k + 1;
      StepStep(j, k);
    }
    TileBlockAppend(pf, j, opcode, t, n, ds);
    dev.WriteDesc(w1, cur, desc_idx, next_desc, Barrier(pf, opcode, config));
    cur := cur + [Barrier(pf, opcode, config)];
    desc_idx, next_desc := desc_idx + 1, next_desc + 0x40;
    dev.WriteDesc(w1, cur, desc_idx, next_desc, WriteTile(pf, j, opcode, config, cnt_C));
    cur := cur + [WriteTile(pf, j, opcode, config, cnt_C)];
    desc_idx, next_desc := desc_idx + 1, next_desc + 0x40;
    dev.WriteDesc(w1, cur, desc_idx, next_desc, Barrier(pf, opcode, config));
    desc_idx, next_desc := desc_idx + 1, next_desc + 0x40;
  }

  lemma NoTilePairs(pf: Platform, j: Job, opcode: nat, t: nat, n: nat, ds: seq<Desc>)
    ensures ds == ds + TilePairs(pf, j, opcode, t, n, 0)
  {
  }

  /** The tile height and configuration as the loop computes them. */
  method TileShape(j: Job, p: nat, config: nat) returns (p_size_tile: nat, Decoupled_config: nat)
    requires p < j.p && p % 32 == 0 && config == 0
    ensures p_size_tile == TileRows(j, p) && Decoupled_config == TileConfig(j, p)
    ensures Decoupled_config != 0 ==> p + 32 >= j.p
  {
    var A_ROW_PAD := (j.p + COMPUTE_WAY - 1) / COMPUTE_WAY * COMPUTE_WAY;
    p_size_tile, Decoupled_config := REG_SIZE, config;
    if p + REG_SIZE > A_ROW_PAD {
      assert A_ROW_PAD >= j.p;
      p_size_tile := A_ROW_PAD - (j.p / REG_SIZE * REG_SIZE);
      match p_size_tile {
        case 8 => Decoupled_config := 0;
        case 16 => Decoupled_config := 1;
        case 24 => Decoupled_config := 2;
        case 32 => Decoupled_config := 3;
        case _ =>
      }
    }
  }

  /** Second pass for one row tile: all its column groups. */
  method FillRow(dev: CdmaDev, ghost w1: seq<int>, j: Job, opcode: nat, config: nat, p: nat, p_size_tile: nat,
                 ghost t: nat,
                 cntB: nat, cntC: nat, idx: nat, next: int)
    returns (desc_idx: nat, next_desc: int, cnt_B: nat, cnt_C: nat)
    requires t < RowTiles(j) && (TileNo(j, t, 0) > 0 ==> BankGroups(j) > 0)
    requires Filled(w1, dev.dma_desc[..], dev.platform, TileBlocks(dev.platform, j, opcode, TileNo(j, t, 0)))
    requires idx == BlocksLen(j, TileNo(j, t, 0)) && next == dev.platform.DescMemBase() + 0x40 * (idx + 1)
    requires 16 * BlocksLen(j, NumTileBlocks(j)) <= dev.dma_desc.Length
    requires p == 32 * t && config == TileConfig(j, p) && p_size_tile == TileRows(j, p)
    requires cntB == 512 * (TileNo(j, t, 0) * Steps(j)) && cntC == 512 * TileNo(j, t, 0)
    modifies dev.dma_desc
    ensures TileNo(j, t, BankGroups(j)) > 0 ==> BankGroups(j) > 0
    ensures Filled(w1, dev.dma_desc[..], dev.platform, TileBlocks(dev.platform, j, opcode, TileNo(j, t, BankGroups(j))))
    ensures desc_idx == BlocksLen(j, TileNo(j, t, BankGroups(j)))
    ensures next_desc == dev.platform.DescMemBase() + 0x40 * (desc_idx + 1)
    ensures cnt_B == 512 * (TileNo(j, t, BankGroups(j)) * Steps(j)) && cnt_C == 512 * TileNo(j, t, BankGroups(j))
  {
    hide Filled, BlocksLen, RowTiles, BankGroups, NumTileBlocks, Steps, TileBlocks, TileBlock, TileRows, TileConfig,
         TileNo, Ceil;
    desc_idx, next_desc, cnt_B, cnt_C := idx, next, cntB, cntC;
    var r := 0;
    ghost var g, n: nat := 0, TileNo(j, t, 0);
    GroupStep(j, 0);
    while r < j.r
      invariant r == 16 * g && g <= BankGroups(j) && (g < BankGroups(j) <==> r < j.r) && n == TileNo(j, t, g)
      invariant desc_idx == BlocksLen(j, n) && next_desc == dev.platform.DescMemBase() + 0x40 * (desc_idx + 1)
      invariant cnt_B == 512 * (n * Steps(j)) && cnt_C == 512 * n
      invariant n > 0 ==> BankGroups(j) > 0
      invariant Filled(w1, dev.dma_desc[..], dev.platform, TileBlocks(dev.platform, j, opcode, n))
      decreases BankGroups(j) - g
    {
      TileIndex(j, t, g);
      TileNext(j, t, g);
      TileBlockAt(dev.platform, j, opcode, t, g);
      desc_idx, next_desc, cnt_B := FillTile(dev, w1, TileBlocks(dev.platform, j, opcode, n), j, opcode, config,
                                             p, p_size_tile, t, n, cnt_B, cnt_C, desc_idx, next_desc);
      cnt_C := cnt_C + REG_SIZE * NUM_BANKS;
      assert (n + 1) * Steps(j) == n * Steps(j) + Steps(j);
      r, g, n := r + NUM_BANKS, g + 1, n + 1;
      GroupStep(j, g);
    }
  }

  lemma TileNext(j: Job, t: nat, g: nat)
    ensures TileNo(j, t, g + 1) == TileNo(j, t, g) + 1
  {
  }

  lemma RowNext(j: Job, t: nat)
    ensures TileNo(j, t, BankGroups(j)) == TileNo(j, t + 1, 0)
    ensures TileNo(j, RowTiles(j), 0) == NumTileBlocks(j) && TileNo(j, 0, 0) == 0
  {
    hide BankGroups, RowTiles;
  }

  method FillTiles(dev: CdmaDev, ghost w1: seq<int>, j: Job, opcode: nat)
    returns (desc_idx: nat, next_desc: int, Decoupled_config: nat)
    requires Filled(w1, dev.dma_desc[..], dev.platform, [])
    requires 16 * BlocksLen(j, NumTileBlocks(j)) <= dev.dma_desc.Length
    modifies dev.dma_desc
    ensures NumTileBlocks(j) > 0 ==> BankGroups(j) > 0
    ensures Filled(w1, dev.dma_desc[..], dev.platform, TileBlocks(dev.platform, j, opcode, NumTileBlocks(j)))
    ensures desc_idx == BlocksLen(j, NumTileBlocks(j)) &&
      next_desc == dev.platform.DescMemBase() + 0x40 * (desc_idx + 1)
    ensures Decoupled_config == LastConfig(j)
  {
    hide Filled, BlocksLen, RowTiles, BankGroups, NumTileBlocks, Steps, TileBlocks, TileBlock, TileRows, TileConfig,
         TileNo;
    NoTileBlocks(dev.platform, j, opcode);
    RowNext(j, 0);
    desc_idx, next_desc, Decoupled_config := 0, dev.platform.DescMemBase() + 0x40, 0;
    var cnt_B, cnt_C := 0, 0;
    var p := 0;
    ghost var t: nat := 0;
    TileStep(j, 0);
    while p < j.p
      invariant p == 32 * t && t <= RowTiles(j) && (t < RowTiles(j) <==> p < j.p)
      invariant p < j.p ==> Decoupled_config == 0
      invariant Decoupled_config == if t == 0 then 0 else TileConfig(j, 32 * (t - 1))
      invariant desc_idx == BlocksLen(j, TileNo(j, t, 0)) &&
        next_desc == dev.platform.DescMemBase() + 0x40 * (desc_idx + 1)
      invariant cnt_B == 512 * (TileNo(j, t, 0) * Steps(j)) && cnt_C == 512 * TileNo(j, t, 0)
      invariant TileNo(j, t, 0) > 0 ==> BankGroups(j) > 0
      invariant Filled(w1, dev.dma_desc[..], dev.platform, TileBlocks(dev.platform, j, opcode, TileNo(j, t, 0)))
      decreases RowTiles(j) - t
    {
      var p_size_tile;
      p_size_tile, Decoupled_config := TileShape(j, p, Decoupled_config);
      desc_idx, next_desc, cnt_B, cnt_C :=
        FillRow(dev, w1, j, opcode, Decoupled_config, p, p_size_tile, t, cnt_B, cnt_C, desc_idx, next_desc);
      RowNext(j, t);
      p, t := p + REG_SIZE, t + 1;
      TileStep(j, t);
    }
  }

  method MatmulDecoupled(dev: CdmaDev, j: Job, opcode: nat) returns (desc_idx: nat, next_desc: int)
    requires 16 * |DecoupledChain(dev.platform, j, opcode)| <= dev.dma_desc.Length
    modifies dev`config_reg, dev.dma_desc
    ensures Compiled(old(dev.dma_desc[..]), dev.dma_desc[..], dev.platform, DecoupledChain(dev.platform, j, opcode))
    ensures desc_idx + 1 == |DecoupledChain(dev.platform, j, opcode)|
    ensures next_desc == dev.platform.DescMemBase() + 0x40 * (desc_idx + 1)
    ensures Reg(dev.config_reg, CONF_OFFSET_DESC_BASE) == dev.platform.DescMemBase()
    ensures Reg(dev.config_reg, CONF_OFFSET_DESC_BASE) + Reg(dev.config_reg, CONF_OFFSET_DESC_NUM) == next_desc - 0x40
    ensures Reg(dev.config_reg, CONF_OFFSET_HPC_CLR) == 0 && Reg(dev.config_reg, CONF_OFFSET_AIM_WORKING) == 1
    ensures OnlyArming(old(dev.config_reg), dev.config_reg)
  {
    hide Cleared, Filled, Compiled, TileBlocks, BlocksLen, NumTileBlocks, LastConfig;
    ghost var w0, pf := dev.dma_desc[..], dev.platform;
    desc_idx := ClearTiles(dev, j);
    dev.ClearStatus(w0, desc_idx);

    ghost var w1 := dev.dma_desc[..];
    FilledNone(w1, pf);
    var mode := if j.p % REG_SIZE != 0 then OPCODE_MAT_MUL_DECOUPLED_8x4 else opcode;
    var Decoupled_config;
    desc_idx, next_desc, Decoupled_config := FillTiles(dev, w1, j, mode);
    dev.WriteDesc(w1, TileBlocks(pf, j, mode, NumTileBlocks(j)), desc_idx, next_desc,
      Final(dev.platform, 0, mode, Decoupled_config));
    CompiledByPasses(w0, w1, dev.dma_desc[..], pf, DecoupledChain(pf, j, opcode));
    dev.Arm(desc_idx);
  }
}
