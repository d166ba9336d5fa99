/**
 What running a chain does not show, since the machine reads neither: the high address words of its
 descriptors, and the tile configuration in the INFO words of a decoupled chain.
 */
module ChainWords {
  import opened Arith
  import opened Machine
  import opened DescMem
  import opened MatmulChains
  import opened Triples
  import opened Elementwise
  import opened Gemm
  import opened Decoupled
  import I = Ioctl

  /** The tile configuration in an INFO word. */
  function Config(info: int): int { info / 0x400000 }

  /** The configuration of descriptor i, or -1 when there is none. */
  function ConfigAt(ds: seq<Desc>, i: int): int {
    if 0 <= i < |ds| then Config(ds[i].info) else -1
  }

  /** The high words of the addresses a descriptor really reads and writes are the device's. */
  predicate HighWords(pf: Platform, d: Desc) {
    && (Command(d.info) == 0x2 || Command(d.info) == 0x4 ==> d.saHigh == pf.highAddr)
    && (Command(d.info) == 0x0 || Command(d.info) == 0x9 ==> d.daHigh == pf.highAddr)
  }

  /** Every descriptor has its high words and carries the configuration. */
  ghost predicate Carry(pf: Platform, ds: seq<Desc>, config: int) {
    forall i {:trigger ds[i]} :: 0 <= i < |ds| ==> HighWords(pf, ds[i]) && Config(ds[i].info) == config
  }

  /** The same without the configuration. */
  ghost predicate AllHigh(pf: Platform, ds: seq<Desc>) {
    forall i {:trigger ds[i]} :: 0 <= i < |ds| ==> HighWords(pf, ds[i])
  }

  // ----- one descriptor

  lemma DescCarries(pf: Platform, d: Desc, cmd: nat, opcode: nat, config: nat)
    requires d.info == Info(cmd, opcode, config) && cmd < 16 && opcode < 0x40000
    requires cmd == 0x2 || cmd == 0x4 ==> d.saHigh == pf.highAddr
    requires cmd == 0x0 || cmd == 0x9 ==> d.daHigh == pf.highAddr
    ensures HighWords(pf, d) && Config(d.info) == config
  {
    InfoFields(cmd, opcode, config);
    assert (cmd + 16 * opcode) / 0x400000 == 0;
  }

  lemma CarryConcat(pf: Platform, a: seq<Desc>, b: seq<Desc>, config: int)
    requires Carry(pf, a, config) && Carry(pf, b, config)
    ensures Carry(pf, a + b, config)
  {
    hide HighWords;
  }

  lemma CarryOne(pf: Platform, d: Desc, cmd: nat, opcode: nat, config: nat)
    requires d.info == Info(cmd, opcode, config) && cmd < 16 && opcode < 0x40000
    requires cmd == 0x2 || cmd == 0x4 ==> d.saHigh == pf.highAddr
    requires cmd == 0x0 || cmd == 0x9 ==> d.daHigh == pf.highAddr
    ensures Carry(pf, [d], config)
  {
    hide HighWords, Info;
    DescCarries(pf, d, cmd, opcode, config);
  }

  // ----- multiplication blocks and triples

  lemma {:induction false} PairsCarry(pf: Platform, j: Job, p: nat, r: nat, n: nat)
    ensures Carry(pf, Pairs(pf, j, OPCODE_MAT_MUL, p, r, n), 0)
  {
    hide Carry, LoadA, StreamB;
    if n == 0 {
      NoneCarry(pf, 0);
    } else {
      PairsCarry(pf, j, p, r, n - 1);
      PairCarries(pf, j, p, r, 32 * (n - 1));
      var ds := Pairs(pf, j, OPCODE_MAT_MUL, p, r, n - 1);
      CarryConcat(pf, ds, [LoadA(pf, j, OPCODE_MAT_MUL, p, 32 * (n - 1))], 0);
      CarryConcat(pf, ds + [LoadA(pf, j, OPCODE_MAT_MUL, p, 32 * (n - 1))],
        [StreamB(pf, j, OPCODE_MAT_MUL, r, 32 * (n - 1))], 0);
    }
  }

  lemma NoneCarry(pf: Platform, config: int)
    ensures Carry(pf, [], config)
  {
  }

  lemma PairCarries(pf: Platform, j: Job, p: nat, r: nat, q: nat)
    ensures Carry(pf, [LoadA(pf, j, OPCODE_MAT_MUL, p, q)], 0) && Carry(pf, [StreamB(pf, j, OPCODE_MAT_MUL, r, q)], 0)
  {
    hide Carry;
    CarryOne(pf, LoadA(pf, j, OPCODE_MAT_MUL, p, q), 0x2, OPCODE_MAT_MUL, 0);
    CarryOne(pf, StreamB(pf, j, OPCODE_MAT_MUL, r, q), 0x4, OPCODE_MAT_MUL, 0);
  }

  lemma BarrierCarries(pf: Platform, opcode: nat, config: nat)
    requires opcode < 0x40000
    ensures Carry(pf, [Barrier(pf, opcode, config)], config)
  {
    hide Carry;
    CarryOne(pf, Barrier(pf, opcode, config), 0x0, opcode, config);
  }

  lemma WriteCarries(pf: Platform, j: Job, p: nat, r: nat)
    ensures Carry(pf, [WriteC(pf, j, OPCODE_MAT_MUL, p, r)], 0)
  {
    hide Carry;
    CarryOne(pf, WriteC(pf, j, OPCODE_MAT_MUL, p, r), 0x9, OPCODE_MAT_MUL, 0);
  }

  /** Three descriptors behind a run of others: barrier, write-back, barrier. */
  lemma TailCarries(pf: Platform, ds: seq<Desc>, barrier: Desc, write: Desc, config: int)
    requires Carry(pf, ds, config) && Carry(pf, [barrier], config) && Carry(pf, [write], config)
    ensures Carry(pf, ds + [barrier] + [write] + [barrier], config)
  {
    hide Carry;
    CarryConcat(pf, ds, [barrier], config);
    CarryConcat(pf, ds + [barrier], [write], config);
    CarryConcat(pf, ds + [barrier] + [write], [barrier], config);
  }

  lemma {:induction false} BlocksCarry(pf: Platform, j: Job, n: nat)
    requires n > 0 ==> ColChunks(j) > 0
    ensures Carry(pf, Blocks(pf, j, OPCODE_MAT_MUL, n), 0)
  {
    hide Carry, Block, ColChunks;
    if n == 0 {
      NoneCarry(pf, 0);
    } else {
      BlocksCarry(pf, j, n - 1);
      BlockCarries(pf, j, (n - 1) / ColChunks(j), (n - 1) % ColChunks(j));
      CarryConcat(pf, Blocks(pf, j, OPCODE_MAT_MUL, n - 1),
        Block(pf, j, OPCODE_MAT_MUL, (n - 1) / ColChunks(j), (n - 1) % ColChunks(j)), 0);
    }
  }

  lemma BlockCarries(pf: Platform, j: Job, p: nat, r: nat)
    ensures Carry(pf, Block(pf, j, OPCODE_MAT_MUL, p, r), 0)
  {
    hide Carry, Pairs, Barrier, WriteC, Ceil;
    PairsCarry(pf, j, p, r, Ceil(j.q, 32));
    BarrierCarries(pf, OPCODE_MAT_MUL, 0);
    WriteCarries(pf, j, p, r);
    TailCarries(pf, Pairs(pf, j, OPCODE_MAT_MUL, p, r, Ceil(j.q, 32)), Barrier(pf, OPCODE_MAT_MUL, 0),
      WriteC(pf, j, OPCODE_MAT_MUL, p, r), 0);
  }

  lemma {:induction false} TriplesCarry(pf: Platform, opcode: nat, ts: seq<Tri>)
    requires IsEle(opcode)
    ensures Carry(pf, TripleChain(pf, opcode, ts), 0)
  {
    hide Carry, Triple;
    if ts == [] {
      NoneCarry(pf, 0);
    } else {
      TriplesCarry(pf, opcode, ts[..|ts| - 1]);
      TripleCarries(pf, opcode, ts[|ts| - 1]);
      CarryConcat(pf, TripleChain(pf, opcode, ts[..|ts| - 1]), Triple(pf, opcode, ts[|ts| - 1]), 0);
    }
  }

  lemma TripleCarries(pf: Platform, opcode: nat, t: Tri)
    requires IsEle(opcode)
    ensures Carry(pf, Triple(pf, opcode, t), 0)
  {
    hide HighWords, Config;
    DescCarries(pf, Latch(pf, opcode, t), 0x2, opcode, 0);
    DescCarries(pf, Stream(pf, opcode, t), 0x4, opcode, 0);
    DescCarries(pf, WriteBack(pf, opcode, t), 0x9, opcode, 0);
  }

  // ----- decoupled blocks

  lemma {:induction false} TilePairsCarry(pf: Platform, j: Job, opcode: nat, t: nat, n: nat, k: nat)
    requires opcode < 0x40000
    ensures Carry(pf, TilePairs(pf, j, opcode, t, n, k), TileConfig(j, 32 * t))
  {
    hide Carry, LoadWeights, StreamPanel, TileConfig, TileRows, Steps;
    var config, h := TileConfig(j, 32 * t), TileRows(j, 32 * t);
    if k == 0 {
      NoneCarry(pf, config);
    } else {
      TilePairsCarry(pf, j, opcode, t, n, k - 1);
      var ds := TilePairs(pf, j, opcode, t, n, k - 1);
      var load := LoadWeights(pf, j, opcode, config, 512 * (n * Steps(j) + (k - 1)));
      var panel := StreamPanel(pf, j, opcode, config, 32 * t, h, (k - 1) * (32 * h));
      LoadCarries(pf, j, opcode, config, 512 * (n * Steps(j) + (k - 1)));
      StreamCarries(pf, j, opcode, config, 32 * t, h, (k - 1) * (32 * h));
      CarryConcat(pf, ds, [load], config);
      CarryConcat(pf, ds + [load], [panel], config);
    }
  }

  lemma LoadCarries(pf: Platform, j: Job, opcode: nat, config: nat, cnt_B: nat)
    requires opcode < 0x40000
    ensures Carry(pf, [LoadWeights(pf, j, opcode, config, cnt_B)], config)
  {
    hide Carry;
    CarryOne(pf, LoadWeights(pf, j, opcode, config, cnt_B), 0x2, opcode, config);
  }

  lemma StreamCarries(pf: Platform, j: Job, opcode: nat, config: nat, p: nat, h: nat, cnt_A: nat)
    requires opcode < 0x40000
    ensures Carry(pf, [StreamPanel(pf, j, opcode, config, p, h, cnt_A)], config)
  {
    hide Carry;
    CarryOne(pf, StreamPanel(pf, j, opcode, config, p, h, cnt_A), 0x4, opcode, config);
  }

  lemma WriteTileCarries(pf: Platform, j: Job, opcode: nat, config: nat, cnt_C: nat)
    requires opcode < 0x40000
    ensures Carry(pf, [WriteTile(pf, j, opcode, config, cnt_C)], config)
  {
    hide Carry;
    CarryOne(pf, WriteTile(pf, j, opcode, config, cnt_C), 0x9, opcode, config);
  }

  lemma TileBlockCarries(pf: Platform, j: Job, opcode: nat, t: nat, n: nat)
    requires opcode < 0x40000
    ensures Carry(pf, TileBlock(pf, j, opcode, t, n), TileConfig(j, 32 * t))
  {
    hide Carry, TilePairs, Barrier, WriteTile, TileConfig, Steps;
    var config := TileConfig(j, 32 * t);
    TilePairsCarry(pf, j, opcode, t, n, Steps(j));
    BarrierCarries(pf, opcode, config);
    WriteTileCarries(pf, j, opcode, config, 512 * n);
    TailCarries(pf, TilePairs(pf, j, opcode, t, n, Steps(j)), Barrier(pf, opcode, config),
      WriteTile(pf, j, opcode, config, 512 * n), config);
  }

  lemma {:induction false} TileBlocksHigh(pf: Platform, j: Job, opcode: nat, n: nat)
    requires opcode < 0x40000 && (n > 0 ==> BankGroups(j) > 0)
    ensures AllHigh(pf, TileBlocks(pf, j, opcode, n))
  {
    hide TileBlock, HighWords, Config, BankGroups, TileConfig;
    if n == 0 {
    } else {
      TileBlocksHigh(pf, j, opcode, n - 1);
      TileBlockCarries(pf, j, opcode, (n - 1) / BankGroups(j), n - 1);
    }
  }

  // ----- whole chains

  lemma CarryHigh(pf: Platform, ds: seq<Desc>, config: int)
    requires Carry(pf, ds, config)
    ensures AllHigh(pf, ds)
  {
    hide HighWords, Config;
  }

  lemma HighLast(pf: Platform, ds: seq<Desc>, d: Desc, opcode: nat, config: nat)
    requires AllHigh(pf, ds) && d.info == Info(0x0, opcode, config) && opcode < 0x40000 && d.daHigh == pf.highAddr
    ensures AllHigh(pf, ds + [d])
  {
    DescCarries(pf, d, 0x0, opcode, config);
    hide HighWords, Info;
  }

  /**
   In every chain the driver compiles, the descriptors that load or stream have the device's high address word
   at their source, and those that write memory have it at their destination.
   */
  lemma ChainHighWords(pf: Platform, cmd: I.Command, j: Job)
    requires cmd.Known()
    ensures forall i {:trigger I.ChainOf(pf, cmd, j)[i]} :: 0 <= i < |I.ChainOf(pf, cmd, j)| ==>
      var d := I.ChainOf(pf, cmd, j)[i];
      && (Command(d.info) == 0x2 || Command(d.info) == 0x4 ==> d.saHigh == pf.highAddr)
      && (Command(d.info) == 0x0 || Command(d.info) == 0x9 ==> d.daHigh == pf.highAddr)
  {
    ChainAllHigh(pf, cmd, j);
    hide I.ChainOf;
  }

  lemma ChainAllHigh(pf: Platform, cmd: I.Command, j: Job)
    requires cmd.Known()
    ensures AllHigh(pf, I.ChainOf(pf, cmd, j))
  {
    hide AllHigh, Carry, Blocks, TripleChain, TileBlocks, NumTileBlocks, LastConfig;
    hide AddTris, EleTris, BiasTris, ColChunks;
    match cmd
    case MATMUL =>
      BlocksCarry(pf, j, j.p * ColChunks(j));
      CarryHigh(pf, Blocks(pf, j, OPCODE_MAT_MUL, j.p * ColChunks(j)), 0);
      HighLast(pf, Blocks(pf, j, OPCODE_MAT_MUL, j.p * ColChunks(j)), Final(pf, 0, OPCODE_MAT_MUL, 0),
        OPCODE_MAT_MUL, 0);
    case MATMUL_DECOUPLED =>
      var opcode := Mode(j, OPCODE_MAT_MUL_DECOUPLED_32x1);
      I.SomeGroups(j);
      TileBlocksHigh(pf, j, opcode, NumTileBlocks(j));
      HighLast(pf, TileBlocks(pf, j, opcode, NumTileBlocks(j)), Final(pf, 0, opcode, LastConfig(j)),
        opcode, LastConfig(j));
    case GEMM =>
      var a, b := Blocks(pf, j, OPCODE_MAT_MUL, j.p * ColChunks(j)), TripleChain(pf, OPCODE_ELE_ADD, AddTris(pf, j));
      BlocksCarry(pf, j, j.p * ColChunks(j));
      TriplesCarry(pf, OPCODE_ELE_ADD, AddTris(pf, j));
      CarryConcat(pf, a, b, 0);
      CarryHigh(pf, a + b, 0);
      HighLast(pf, a + b, EleFinal(pf, OPCODE_ELE_ADD), OPCODE_ELE_ADD, 0);
    case ELEWISE(op) => TripleChainHigh(pf, op, EleTris(pf, j));
    case BIAS(op) => TripleChainHigh(pf, op, BiasTris(pf, j));
  }

  lemma TripleChainHigh(pf: Platform, opcode: nat, ts: seq<Tri>)
    requires IsEle(opcode)
    ensures AllHigh(pf, TripleChain(pf, opcode, ts) + [EleFinal(pf, opcode)])
  {
    hide AllHigh, Carry, TripleChain;
    TriplesCarry(pf, opcode, ts);
    CarryHigh(pf, TripleChain(pf, opcode, ts), 0);
    HighLast(pf, TripleChain(pf, opcode, ts), EleFinal(pf, opcode), opcode, 0);
  }

  /** The blocks up to any number are a prefix of the chain. */
  lemma {:induction false} TileBlocksPrefix(pf: Platform, j: Job, opcode: nat, i: nat, n: nat)
    requires BankGroups(j) > 0 && i <= n
    ensures TileBlocks(pf, j, opcode, i) <= TileBlocks(pf, j, opcode, n)
  {
    hide TileBlock, BankGroups, BlocksLen, Ceil;
    if i < n {
      TileBlocksPrefix(pf, j, opcode, i, n - 1);
    }
  }

  /** 8 * (configuration + 1) is the height of a partial last tile; every other tile is sent with 0. */
  lemma ConfigIsHeight(j: Job, t: nat)
    requires 32 * t < j.p
    ensures 32 * t + 32 <= (j.p + 7) / 8 * 8 ==> TileConfig(j, 32 * t) == 0
    ensures 32 * t + 32 > (j.p + 7) / 8 * 8 ==> 8 * (TileConfig(j, 32 * t) + 1) == (j.p + 7) / 8 * 8 - 32 * t
  {
    if 32 * t + 32 > (j.p + 7) / 8 * 8 {
      assert j.p / 32 == t;
      var h := (j.p + 7) / 8 - 4 * t;
      assert 1 <= h <= 3 && TileRows(j, 32 * t) == 8 * h;
    }
  }

  /**
   The INFO words of a decoupled chain tell the device how high each tile is. All descriptors of a row tile carry
   the configuration c with 8 * (c + 1) its height in rows when the tile is a partial one, and 0 when it is full;
   the final descriptor carries that of the last tile.
   */
  lemma TilesConfigured(pf: Platform, j: Job, opcode: nat, t: nat, g: nat, k: nat)
    requires opcode < 0x40000 && t < Ceil(j.p, 32) && g < Ceil(j.r, 16) && k < 2 * Ceil(j.q, 32) + 3
    ensures var ds := DecoupledChain(pf, j, opcode);
      var c := ConfigAt(ds, (t * Ceil(j.r, 16) + g) * (2 * Ceil(j.q, 32) + 3) + k);
      && (if 32 * t + 32 <= (j.p + 7) / 8 * 8 then c == 0 else 8 * (c + 1) == (j.p + 7) / 8 * 8 - 32 * t)
      && (t + 1 == Ceil(j.p, 32) ==> ConfigAt(ds, |ds| - 1) == c)
  {
    hide Config, Final, TileBlock, TileBlocks, TileConfig, BlocksLen, Ceil, Mode, HighWords;
    var md := Mode(j, opcode);
    var n, ds := TileNo(j, t, g), DecoupledChain(pf, j, opcode);
    ModeSmall(j, opcode);
    TileIndex(j, t, g);
    TileBlockAt(pf, j, md, t, g);
    TileBlocksPrefix(pf, j, md, n + 1, NumTileBlocks(j));
    BlocksLenClosed(j, n);
    TileBlockCarries(pf, j, md, t, n);
    InTile(j, t);
    ConfigIsHeight(j, t);
    InBlock(TileBlocks(pf, j, md, n), TileBlock(pf, j, md, t, n), TileBlocks(pf, j, md, NumTileBlocks(j)), k);
    FinalConfig(pf, md, LastConfig(j));
  }

  lemma InTile(j: Job, t: nat)
    requires t < Ceil(j.p, 32)
    ensures 32 * t < j.p
  {
    TileStep(j, t);
  }

  lemma InBlock(a: seq<Desc>, b: seq<Desc>, ds: seq<Desc>, k: nat)
    requires a + b <= ds && k < |b|
    ensures ds[|a| + k] == b[k]
  {
    assert (a + b)[|a| + k] == b[k];
  }

  lemma ModeSmall(j: Job, opcode: nat)
    requires opcode < 0x40000
    ensures Mode(j, opcode) < 0x40000
  {
  }

  lemma FinalConfig(pf: Platform, opcode: nat, config: nat)
    requires opcode < 0x40000
    ensures Config(Final(pf, 0, opcode, config).info) == config
  {
    DescCarries(pf, Final(pf, 0, opcode, config), 0x0, opcode, config);
  }
}
