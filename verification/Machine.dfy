/**
 The PIM device as a target machine: it executes a chain of DMA descriptors one after another.

 A descriptor is a DMA copy whose INFO word carries a four-bit command and an opcode. Data lives in
 DRAM as 16-bit elements; `dram(a)` is the element at byte address 2*a, and arithmetic is over the
 integers. The decoupled opcodes follow the register model of the repository's own reference ALU
 (`mat_mul_ALU`); the other opcodes have no such reference, and what they do is an assumption stated here.
 */
module Machine {
  import opened Sums

  const REG_SIZE: nat := 32
  const NUM_BANKS: nat := 16
  const COMPUTE_WAY: nat := 8
  const TYPE_SIZE: nat := 2
  const ACC_SIZE: nat := 512  // vACC_SIZE * NUM_BANKS

  const OPCODE_MAT_MUL: nat := 0x851F
  const OPCODE_MAT_MUL_DECOUPLED_32x1: nat := 0x1051F
  const OPCODE_MAT_MUL_DECOUPLED_8x4: nat := 0x3051F
  const OPCODE_ELE_ADD: nat := 0x42F
  const OPCODE_ELE_SUB: nat := 0x44F
  const OPCODE_ELE_MUL: nat := 0x48F

  const PL_DUMMY_PA: nat := 0xd0000000
  const CONF_MEM_OFFSET: nat := 0x400000
  const DESC_MEM_OFFSET: nat := 0x800000
  const CONF_OFFSET_HPC_CLR: nat := 0x5000

  /** Where the device sits, and how virtual addresses map to the addresses descriptors carry. */
  datatype Platform = Platform(memStart: int, highAddr: int, vaShift: int, paOffset: int) {
    function DescMemBase(): int { memStart + DESC_MEM_OFFSET }
    function ConfMemBase(): int { memStart + CONF_MEM_OFFSET }
    function HpcClearAddr(): int { memStart + CONF_OFFSET_HPC_CLR }
    /** The page-table walk, taken as linear on the buffers of one job. */
    function VaToPa(va: int): int { va + vaShift }
    function DevAddr(va: int): int { VaToPa(va) - paOffset }
  }

  /** The payload of one descriptor: everything but the link to the next one and the status word. */
  datatype Desc = Desc(sa: int, saHigh: int, da: int, daHigh: int, len: int, info: int)

  /** The INFO word: command nibble, opcode and tile configuration in disjoint bit fields. */
  function Info(cmd: nat, opcode: nat, config: nat): int {
    cmd + 16 * opcode + 0x400000 * config
  }

  function Command(info: int): int { info % 16 }

  function Opcode(info: int): int { (info / 16) % 0x40000 }

  lemma InfoFields(cmd: nat, opcode: nat, config: nat)
    requires cmd < 16 && opcode < 0x40000
    ensures Command(Info(cmd, opcode, config)) == cmd
    ensures Opcode(Info(cmd, opcode, config)) == opcode
  {
    assert Info(cmd, opcode, config) / 16 == opcode + 0x40000 * config;
  }

  /** INFO as the driver builds it. */
  function InfoWord(cmd: bv32, opcode: bv32, config: bv32): bv32 {
    cmd | (opcode << 4) | (config << 22)
  }

  /** That word has the three fields, and as a number it is `Info` of them. */
  lemma InfoBits(cmd: bv32, opcode: bv32, config: bv32)
    requires cmd < 16 && opcode < 0x40000 && config < 0x400
    ensures var info := InfoWord(cmd, opcode, config);
      && info & 0xF == cmd && (info >> 4) & 0x3FFFF == opcode && info >> 22 == config
      && info as int == Info(cmd as nat, opcode as nat, config as nat)
  {
    InfoParts(cmd, opcode, config);
    hide InfoWord;
    NarrowFields(cmd, opcode, config);
    NarrowWord(cmd as bv4, opcode as bv18, config as bv10);
  }

  lemma InfoParts(cmd: bv32, opcode: bv32, config: bv32)
    requires cmd < 16 && opcode < 0x40000 && config < 0x400
    ensures var info := InfoWord(cmd, opcode, config);
      info & 0xF == cmd && (info >> 4) & 0x3FFFF == opcode && info >> 22 == config
  {
  }

  lemma NarrowFields(cmd: bv32, opcode: bv32, config: bv32)
    requires cmd < 16 && opcode < 0x40000 && config < 0x400
    ensures (cmd as bv4) as bv32 == cmd && (opcode as bv18) as bv32 == opcode && (config as bv10) as bv32 == config
    ensures cmd as nat == (cmd as bv4) as nat && opcode as nat == (opcode as bv18) as nat &&
      config as nat == (config as bv10) as nat
  {
  }

  lemma NarrowWord(cmd: bv4, opcode: bv18, config: bv10)
    ensures InfoWord(cmd as bv32, opcode as bv32, config as bv32) as int ==
      Info(cmd as nat, opcode as nat, config as nat)
  {
    hide InfoWord;
    WordIs(cmd as bv32, opcode as bv32, config as bv32);
    WordNumber(cmd, opcode, config);
  }

  lemma WordIs(cmd: bv32, opcode: bv32, config: bv32)
    ensures InfoWord(cmd, opcode, config) == cmd | (opcode << 4) | (config << 22)
  {
  }

  lemma WordNumber(cmd: bv4, opcode: bv18, config: bv10)
    ensures ((cmd as bv32) | ((opcode as bv32) << 4) | ((config as bv32) << 22)) as int
         == Info(cmd as nat, opcode as nat, config as nat)
  {
  }

  type Dram = int -> int

  function Read(m: Dram, a: int, n: nat): (s: seq<int>)
    ensures |s| == n
  {
    seq(n, i => m(a + i))
  }

  function At(s: seq<int>, i: int): int {
    if 0 <= i < |s| then s[i] else 0
  }

  /** DRAM m after the first n values of v were written at a. */
  function Write(m: Dram, a: int, v: seq<int>, n: nat): Dram {
    x => if a <= x < a + n then At(v, x - a) else m(x)
  }

  /** DRAM m' agrees with m on len elements from a on. */
  ghost predicate Agree(m: Dram, m': Dram, a: int, len: nat) {
    forall y {:trigger m'(y)} :: a <= y < a + len ==> m'(y) == m(y)
  }

  /** DRAM, the vector register, the accumulators, and whether the end-of-job marker was written. */
  datatype State = State(dram: Dram, vec: seq<int>, acc: seq<int>, hpcCleared: bool)

  function ZeroAcc(): (r: seq<int>)
    ensures |r| == ACC_SIZE
  {
    seq(ACC_SIZE, i => 0)
  }

  /** An elementwise opcode on one pair of elements. */
  function EleOp(opcode: int, x: int, y: int): int {
    if opcode == OPCODE_ELE_ADD then x + y
    else if opcode == OPCODE_ELE_SUB then x - y
    else x * y
  }

  /** Where, in a streamed panel of h rows, the element (row, col) sits: column after column. */
  function Pos32x1(h: nat, row: nat, col: nat): nat {
    col * h + row
  }

  /** Where, in a streamed panel of h rows, the element (row, col) sits: 8x4 tiles, down then right. */
  function Pos8x4(h: nat, row: nat, col: nat): nat {
    (col / 4) * (4 * h) + (row / 8) * 32 + (col % 4) * 8 + row % 8
  }

  function PanelPos(opcode: int, h: nat, row: nat, col: nat): nat {
    if opcode == OPCODE_MAT_MUL_DECOUPLED_8x4 then Pos8x4(h, row, col) else Pos32x1(h, row, col)
  }

  /** One term of a decoupled dot product: panel element (row, col) times the col'th value of a bank. */
  function DecoupledTerm(opcode: int, vec: seq<int>, s: seq<int>, h: nat, x: nat): int -> int {
    c => if c < 0 then 0 else At(s, PanelPos(opcode, h, x % REG_SIZE, c)) * At(vec, (x / REG_SIZE) * REG_SIZE + c)
  }

  /** Streaming a panel of h = |s| / 32 rows by 32 columns past the 16 banks of 32 weights. */
  function DecoupledAcc(opcode: int, vec: seq<int>, acc: seq<int>, s: seq<int>): (r: seq<int>)
    ensures |r| == ACC_SIZE
  {
    var h := |s| / REG_SIZE;
    seq(ACC_SIZE, x requires 0 <= x < ACC_SIZE =>
      if x % REG_SIZE < h then At(acc, x) + Sum(DecoupledTerm(opcode, vec, s, h, x), REG_SIZE) else At(acc, x))
  }

  function MatMulTerm(vec: seq<int>, s: seq<int>, x: nat): int -> int {
    k => At(vec, k) * At(s, k * ACC_SIZE + x)
  }

  /** The stream command: how the opcode combines the vector register, the accumulators and the stream. */
  function Combine(opcode: int, vec: seq<int>, acc: seq<int>, s: seq<int>): (r: seq<int>)
    ensures |r| == ACC_SIZE
  {
    if opcode == OPCODE_MAT_MUL then
      seq(ACC_SIZE, x requires 0 <= x < ACC_SIZE => At(acc, x) + Sum(MatMulTerm(vec, s, x), REG_SIZE))
    else if opcode == OPCODE_MAT_MUL_DECOUPLED_32x1 || opcode == OPCODE_MAT_MUL_DECOUPLED_8x4 then
      DecoupledAcc(opcode, vec, acc, s)
    else
      seq(ACC_SIZE, x requires 0 <= x < ACC_SIZE => EleOp(opcode, At(vec, x), At(s, x)))
  }

  lemma CombineMatMul(vec: seq<int>, acc: seq<int>, s: seq<int>, x: nat)
    requires x < ACC_SIZE == |acc|
    ensures Combine(OPCODE_MAT_MUL, vec, acc, s)[x] == acc[x] + Sum(MatMulTerm(vec, s, x), REG_SIZE)
  {
  }

  /** The number of elements a descriptor of this byte length moves. */
  function Elems(len: int): nat {
    if len < 0 then 0 else len / TYPE_SIZE
  }

  /** The accumulators go to n elements of DRAM at a and are cleared. */
  function Flush(st: State, a: int, n: nat): State {
    State(Write(st.dram, a, st.acc, n), st.vec, ZeroAcc(), st.hpcCleared)
  }

  /** Executing one descriptor. */
  function Step(p: Platform, d: Desc, st: State): State {
    if Command(d.info) == 0x2 then
      State(st.dram, Read(st.dram, d.sa / TYPE_SIZE, Elems(d.len)), st.acc, st.hpcCleared)
    else if Command(d.info) == 0x4 then
      State(st.dram, st.vec,
            Combine(Opcode(d.info), st.vec, st.acc, Read(st.dram, d.sa / TYPE_SIZE, Elems(d.len))), st.hpcCleared)
    else if Command(d.info) == 0x9 then
      Flush(st, d.da / TYPE_SIZE, Elems(d.len))
    else
      State(st.dram, st.vec, st.acc, st.hpcCleared || d.da == p.HpcClearAddr())
  }

  lemma StepLoad(p: Platform, d: Desc, opcode: nat, config: nat, st: State)
    requires d.info == Info(0x2, opcode, config) && opcode < 0x40000 && d.len >= 0
    ensures Step(p, d, st) == st.(vec := Read(st.dram, d.sa / TYPE_SIZE, d.len / TYPE_SIZE))
  {
    InfoFields(0x2, opcode, config);
  }

  lemma StepStream(p: Platform, d: Desc, opcode: nat, config: nat, st: State)
    requires d.info == Info(0x4, opcode, config) && opcode < 0x40000 && d.len >= 0
    ensures Step(p, d, st) ==
      st.(acc := Combine(opcode, st.vec, st.acc, Read(st.dram, d.sa / TYPE_SIZE, d.len / TYPE_SIZE)))
  {
    InfoFields(0x4, opcode, config);
  }

  lemma StepWrite(p: Platform, d: Desc, opcode: nat, config: nat, st: State)
    requires d.info == Info(0x9, opcode, config) && opcode < 0x40000 && d.len >= 0
    ensures Step(p, d, st) == Flush(st, d.da / TYPE_SIZE, d.len / TYPE_SIZE)
  {
    InfoFields(0x9, opcode, config);
  }

  lemma StepBarrier(p: Platform, d: Desc, opcode: nat, config: nat, st: State)
    requires d.info == Info(0x0, opcode, config) && opcode < 0x40000
    ensures Step(p, d, st) == st.(hpcCleared := st.hpcCleared || d.da == p.HpcClearAddr())
  {
    InfoFields(0x0, opcode, config);
  }

  /** Executing a chain, first descriptor first. */
  function Exec(p: Platform, ds: seq<Desc>, st: State): State {
    if ds == [] then st else Step(p, ds[|ds| - 1], Exec(p, ds[..|ds| - 1], st))
  }

  lemma {:induction false} ExecConcat(p: Platform, a: seq<Desc>, b: seq<Desc>, st: State)
    ensures Exec(p, a + b, st) == Exec(p, b, Exec(p, a, st))
  {
    if b == [] {
      assert a + b == a;
    } else {
      var ab := a + b;
      assert ab[..|ab| - 1] == a + b[..|b| - 1];
      ExecConcat(p, a, b[..|b| - 1], st);
    }
  }

  lemma ExecSnoc(p: Platform, a: seq<Desc>, d: Desc, st: State)
    ensures Exec(p, a + [d], st) == Step(p, d, Exec(p, a, st))
  {
    assert (a + [d])[..|a|] == a;
  }

  /** The descriptor leaves the end-of-job marker alone. */
  predicate Silent(p: Platform, d: Desc) {
    Moves(Command(d.info)) || d.da != p.HpcClearAddr()
  }

  /** The commands that load, stream or write back. */
  predicate Moves(cmd: int) {
    cmd == 0x2 || cmd == 0x4 || cmd == 0x9
  }

  ghost predicate AllSilent(p: Platform, ds: seq<Desc>) {
    forall i {:trigger ds[i]} :: 0 <= i < |ds| ==> Silent(p, ds[i])
  }

  lemma {:induction false} SilentRun(p: Platform, ds: seq<Desc>, st: State)
    requires AllSilent(p, ds)
    ensures Exec(p, ds, st).hpcCleared == st.hpcCleared
  {
    if ds == [] {
    } else {
      hide Step, Silent;
      SilentRun(p, ds[..|ds| - 1], st);
      SilentStep(p, ds[|ds| - 1], Exec(p, ds[..|ds| - 1], st));
    }
  }

  lemma SilentStep(p: Platform, d: Desc, st: State)
    requires Silent(p, d)
    ensures Step(p, d, st).hpcCleared == st.hpcCleared
  {
    hide Combine, Read, Write, Command;
  }

  lemma SilentConcat(p: Platform, a: seq<Desc>, b: seq<Desc>)
    requires AllSilent(p, a) && AllSilent(p, b)
    ensures AllSilent(p, a + b)
  {
  }

  lemma SilentInfo(p: Platform, d: Desc, cmd: nat, opcode: nat, config: nat)
    requires d.info == Info(cmd, opcode, config) && cmd < 16 && opcode < 0x40000
    requires Moves(cmd) || d.da != p.HpcClearAddr()
    ensures Silent(p, d)
  {
    InfoFields(cmd, opcode, config);
  }
}
