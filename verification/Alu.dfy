/**
 The register model of the decoupled opcodes, loop by loop as the reference ALU runs it: 16 banks with
 32 weights, 32 accumulators each, one 32-element vector broadcast to all banks at a time. Its rotating
 counters are shown to compute the stream command of the machine.
 */
module Alu {
  import opened Sums
  import opened Machine

  const BL: nat := 4

  /** Accumulator x after the first n columns of its panel row. */
  function Partial(opcode: nat, vec: seq<int>, s: seq<int>, h: nat, acc0: seq<int>, x: nat, n: nat): int {
    At(acc0, x) + Sum(DecoupledTerm(opcode, vec, s, h, x), n)
  }

  // ----- 8x4 mode

  /**
   Columns that accumulator x has taken in when the loops stand at vector v * reuse + a, bank ji, burst
   `burst`, lane alu: four per finished turn of the vector blocks, and what its own block got in this turn.
   */
  function Columns8x4(x: nat, v: nat, a: nat, ji: nat, burst: nat, alu: nat): nat {
    var blk, lane, bank := (x % 32) / 8, x % 8, x / 32;
    4 * v + (if blk < a then 4
             else if blk > a then 0
             else if bank < ji then 4
             else if bank > ji then 0
             else burst + (if lane < alu then 1 else 0))
  }

  ghost predicate At8x4(vec: seq<int>, s: seq<int>, h: nat, acc0: seq<int>, acc: seq<int>, v: nat, a: nat, ji: nat,
                        burst: nat, alu: nat) {
    && |acc| == |acc0| == ACC_SIZE
    && forall x: nat {:trigger acc[x]} :: x < ACC_SIZE ==>
         acc[x] == if x % 32 < h then Partial(OPCODE_MAT_MUL_DECOUPLED_8x4, vec, s, h, acc0, x,
           Columns8x4(x, v, a, ji, burst, alu))
                   else acc0[x]
  }

  /** Lane alu of block a, column 4 * v + burst, is where the broadcast vector v * reuse + a holds it. */
  lemma Lane8x4(reuse: nat, v: nat, a: nat, burst: nat, alu: nat)
    requires a < reuse && burst < 4 && alu < 8
    ensures Pos8x4(8 * reuse, 8 * a + alu, 4 * v + burst) == 32 * (v * reuse + a) + burst * 8 + alu
  {
    assert (4 * v + burst) / 4 == v && (4 * v + burst) % 4 == burst;
    assert (8 * a + alu) / 8 == a && (8 * a + alu) % 8 == alu;
    assert v * (4 * (8 * reuse)) == 32 * (v * reuse);
  }

  lemma Index8x4(ji: nat, a: nat, alu: nat)
    requires ji < 16 && a < 4 && alu < 8
    ensures var y := ji * 32 + a * 8 + alu;
      y < ACC_SIZE && y / 32 == ji && y % 32 == 8 * a + alu && (y % 32) / 8 == a && y % 8 == alu
    ensures forall x: nat {:trigger x / 32} :: x / 32 == ji && (x % 32) / 8 == a && x % 8 == alu ==>
      x == ji * 32 + a * 8 + alu
  {
  }

  /** The product an ALU lane adds is the next term of its accumulator's dot product. */
  lemma LaneTerm8x4(vec: seq<int>, s: seq<int>, reuse: nat, v: nat, a: nat, k: nat, ji: nat, burst: nat, alu: nat)
    requires 0 < reuse <= 4 && a < reuse && v < 8 && k == v * reuse + a && ji < 16 && burst < 4 && alu < 8
    requires |vec| == ACC_SIZE && |s| == 32 * (8 * reuse)
    ensures ji * 32 + a * 8 + alu < ACC_SIZE && 32 * k + burst * 8 + alu < |s| &&
      (ji * 32 + a * 8 + alu) % 32 < 8 * reuse
    ensures DecoupledTerm(OPCODE_MAT_MUL_DECOUPLED_8x4, vec, s, 8 * reuse, ji * 32 + a * 8 + alu)(4 * v + burst) ==
      s[32 * k + burst * 8 + alu] * vec[ji * 32 + (v * BL + burst)]
  {
    hide Pos8x4;
    Index8x4(ji, a, alu);
    Lane8x4(reuse, v, a, burst, alu);
    TurnBound(v, reuse);
  }

  lemma TurnBound(v: nat, reuse: nat)
    requires v < 8
    ensures v * reuse <= 7 * reuse
  {
  }

  lemma LaneColumns8x4(v: nat, a: nat, ji: nat, burst: nat, alu: nat)
    requires ji < 16 && a < 4 && alu < 8
    ensures Columns8x4(ji * 32 + a * 8 + alu, v, a, ji, burst, alu) == 4 * v + burst
    ensures Columns8x4(ji * 32 + a * 8 + alu, v, a, ji, burst, alu + 1) == 4 * v + burst + 1
  {
    Index8x4(ji, a, alu);
  }

  lemma Step8x4(vec: seq<int>, s: seq<int>, reuse: nat, acc0: seq<int>, acc: seq<int>, v: nat, a: nat, k: nat,
                ji: nat, burst: nat, alu: nat)
    requires 0 < reuse <= 4 && a < reuse && v < 8 && k == v * reuse + a && ji < 16 && burst < 4 && alu < 8
    requires |vec| == ACC_SIZE && |s| == 32 * (8 * reuse)
    requires At8x4(vec, s, 8 * reuse, acc0, acc, v, a, ji, burst, alu)
    ensures ji * 32 + a * 8 + alu < |acc| && 32 * k + burst * 8 + alu < |s|
    ensures var y := ji * 32 + a * 8 + alu;
      At8x4(vec, s, 8 * reuse, acc0,
            acc[y := acc[y] + s[32 * k + burst * 8 + alu] * vec[ji * 32 + (v * BL + burst)]], v, a, ji, burst, alu + 1)
  {
    LaneTerm8x4(vec, s, reuse, v, a, k, ji, burst, alu);
    LaneColumns8x4(v, a, ji, burst, alu);
    hide Partial, DecoupledTerm, Columns8x4;
    var y := ji * 32 + a * 8 + alu;
    PartialStep(OPCODE_MAT_MUL_DECOUPLED_8x4, vec, s, 8 * reuse, acc0, y, 4 * v + burst);
    forall x: nat | x < ACC_SIZE && x != y
      ensures Columns8x4(x, v, a, ji, burst, alu + 1) == Columns8x4(x, v, a, ji, burst, alu)
    {
      SameColumns(x, v, a, ji, burst, alu);
    }
  }

  lemma SameColumns(x: nat, v: nat, a: nat, ji: nat, burst: nat, alu: nat)
    requires ji < 16 && a < 4 && alu < 8 && x != ji * 32 + a * 8 + alu
    ensures Columns8x4(x, v, a, ji, burst, alu + 1) == Columns8x4(x, v, a, ji, burst, alu)
  {
    assert x == (x / 32) * 32 + ((x % 32) / 8) * 8 + x % 8;
  }

  lemma PartialStep(opcode: nat, vec: seq<int>, s: seq<int>, h: nat, acc0: seq<int>, x: nat, n: nat)
    ensures Partial(opcode, vec, s, h, acc0, x, n + 1) ==
      Partial(opcode, vec, s, h, acc0, x, n) + DecoupledTerm(opcode, vec, s, h, x)(n)
  {
  }

  /** Rolling a finished inner loop over into the next step of the outer one changes no column count. */
  lemma Roll8x4(vec: seq<int>, s: seq<int>, reuse: nat, acc0: seq<int>, acc: seq<int>,
                v: nat, a: nat, ji: nat, burst: nat, alu: nat, v': nat, a': nat, ji': nat, burst': nat)
    requires At8x4(vec, s, 8 * reuse, acc0, acc, v, a, ji, burst, alu) && reuse <= 4
    requires || (alu == 8 && v' == v && a' == a && ji' == ji && burst' == burst + 1)
             || (burst == 4 && alu == 0 && v' == v && a' == a && ji' == ji + 1 && burst' == 0)
             || (ji == 16 && burst == 0 && alu == 0 && v' == v && a' == a + 1 && ji' == 0 && burst' == 0)
             || (a == reuse && ji == 0 && burst == 0 && alu == 0 && v' == v + 1 && a' == 0 && ji' == 0 && burst' == 0)
    ensures At8x4(vec, s, 8 * reuse, acc0, acc, v', a', ji', burst', 0)
  {
    hide Partial;
    forall x: nat | x < ACC_SIZE && x % 32 < 8 * reuse
      ensures Columns8x4(x, v', a', ji', burst', 0) == Columns8x4(x, v, a, ji, burst, alu)
    {
    }
  }

  lemma Start8x4(vec: seq<int>, s: seq<int>, h: nat, acc: seq<int>)
    requires |acc| == ACC_SIZE
    ensures At8x4(vec, s, h, acc, acc, 0, 0, 0, 0, 0)
  {
    forall x: nat | x < ACC_SIZE ensures Columns8x4(x, 0, 0, 0, 0, 0) == 0 {
    }
  }

  lemma Finish8x4(vec: seq<int>, s: seq<int>, h: nat, acc0: seq<int>, acc: seq<int>)
    requires At8x4(vec, s, h, acc0, acc, 8, 0, 0, 0, 0) && |s| == 32 * h
    ensures acc == Combine(OPCODE_MAT_MUL_DECOUPLED_8x4, vec, acc0, s)
  {
    hide Sum, DecoupledTerm, EleOp, MatMulTerm;
    assert |s| / REG_SIZE == h;
    var r := Combine(OPCODE_MAT_MUL_DECOUPLED_8x4, vec, acc0, s);
    assert r == DecoupledAcc(OPCODE_MAT_MUL_DECOUPLED_8x4, vec, acc0, s);
    forall x: nat | x < ACC_SIZE ensures acc[x] == r[x] {
      assert Columns8x4(x, 8, 0, 0, 0, 0) == 32;
    }
  }

  // ----- 32x1 mode

  function Columns32x1(x: nat, k: nat, ji: nat, ii: nat): nat {
    k + (if x / 32 < ji || (x / 32 == ji && x % 32 < ii) then 1 else 0)
  }

  ghost predicate At32x1(vec: seq<int>, s: seq<int>, acc0: seq<int>, acc: seq<int>, k: nat, ji: nat, ii: nat) {
    && |acc| == |acc0| == ACC_SIZE
    && forall x: nat {:trigger acc[x]} :: x < ACC_SIZE ==>
         acc[x] == Partial(OPCODE_MAT_MUL_DECOUPLED_32x1, vec, s, 32, acc0, x, Columns32x1(x, k, ji, ii))
  }

  lemma Step32x1(vec: seq<int>, s: seq<int>, acc0: seq<int>, acc: seq<int>, k: nat, ji: nat, ii: nat)
    requires k < 32 && ji < 16 && ii < 32 && |vec| == ACC_SIZE && |s| == 1024
    requires At32x1(vec, s, acc0, acc, k, ji, ii)
    ensures var y := ji * 32 + ii;
      At32x1(vec, s, acc0, acc[y := acc[y] + s[32 * k + ii] * vec[ji * 32 + k]], k, ji, ii + 1)
  {
    var y := ji * 32 + ii;
    assert y / 32 == ji && y % 32 == ii;
    assert DecoupledTerm(OPCODE_MAT_MUL_DECOUPLED_32x1, vec, s, 32, y)(k) == s[32 * k + ii] * vec[ji * 32 + k];
    hide Partial, DecoupledTerm;
    PartialStep(OPCODE_MAT_MUL_DECOUPLED_32x1, vec, s, 32, acc0, y, k);
    forall x: nat | x < ACC_SIZE && x != y ensures Columns32x1(x, k, ji, ii + 1) == Columns32x1(x, k, ji, ii) {
      assert x == (x / 32) * 32 + x % 32;
    }
  }

  lemma Roll32x1(vec: seq<int>, s: seq<int>, acc0: seq<int>, acc: seq<int>, k: nat, ji: nat, ii: nat, k': nat, ji': nat)
    requires At32x1(vec, s, acc0, acc, k, ji, ii)
    requires (ii == 32 && k' == k && ji' == ji + 1) || (ji == 16 && ii == 0 && k' == k + 1 && ji' == 0)
    ensures At32x1(vec, s, acc0, acc, k', ji', 0)
  {
    hide Partial;
    forall x: nat | x < ACC_SIZE ensures Columns32x1(x, k', ji', 0) == Columns32x1(x, k, ji, ii) {
    }
  }

  lemma Start32x1(vec: seq<int>, s: seq<int>, acc: seq<int>)
    requires |acc| == ACC_SIZE
    ensures At32x1(vec, s, acc, acc, 0, 0, 0)
  {
    forall x: nat | x < ACC_SIZE ensures Columns32x1(x, 0, 0, 0) == 0 {
    }
  }

  lemma Finish32x1(vec: seq<int>, s: seq<int>, acc0: seq<int>, acc: seq<int>)
    requires At32x1(vec, s, acc0, acc, 32, 0, 0) && |s| == 1024
    ensures acc == Combine(OPCODE_MAT_MUL_DECOUPLED_32x1, vec, acc0, s)
  {
    hide Sum, DecoupledTerm, EleOp, MatMulTerm;
    var r := Combine(OPCODE_MAT_MUL_DECOUPLED_32x1, vec, acc0, s);
    assert r == DecoupledAcc(OPCODE_MAT_MUL_DECOUPLED_32x1, vec, acc0, s);
    forall x: nat | x < ACC_SIZE ensures acc[x] == r[x] {
      assert Columns32x1(x, 32, 0, 0) == 32;
    }
  }

  class Registers {
    const vecA: array<int>  // weights, bank by bank
    const vecB: array<int>  // the broadcast vector, one copy a bank
    const accC: array<int>  // accumulators, bank by bank

    ghost predicate Valid()
    {
      && vecA.Length == vecB.Length == accC.Length == ACC_SIZE
      && vecA != vecB && vecA != accC && vecB != accC
    }

    constructor ()
      ensures Valid() && fresh(vecA) && fresh(vecB) && fresh(accC) && accC[..] == ZeroAcc()
    {
      vecA, vecB, accC := new int[ACC_SIZE], new int[ACC_SIZE], new int[ACC_SIZE](i => 0);
    }

    /** Every bank gets vector k of the stream. */
    method Broadcast(s: seq<int>, k: nat)
      requires Valid() && 32 * k + 32 <= |s|
      modifies vecB
      ensures forall x {:trigger vecB[x]} :: 0 <= x < ACC_SIZE ==> vecB[x] == s[32 * k + x % 32]
    {
      var ji := 0;
      while ji < NUM_BANKS
        invariant ji <= NUM_BANKS
        invariant forall x {:trigger vecB[x]} :: 0 <= x < 32 * ji ==> vecB[x] == s[32 * k + x % 32]
      {
        var ii := 0;
        while ii < REG_SIZE
          invariant ii <= REG_SIZE
          invariant forall x {:trigger vecB[x]} :: 0 <= x < 32 * ji + ii ==> vecB[x] == s[32 * k + x % 32]
        {
          assert (32 * ji + ii) % 32 == ii;
          vecB[ji * 32 + ii] := s[32 * k + ii];
          ii := ii + 1;
        }
        ji := ji + 1;
      }
    }

    /** One panel of k_dim vectors in 8x4 mode: 8, 16, 24 or 32 rows by 32 columns. */
    method Stream8x4(s: seq<int>, k_dim: nat)
      requires Valid() && 0 < k_dim <= 32 && k_dim % 8 == 0 && |s| == 32 * k_dim
      modifies vecB, accC
      ensures accC[..] == Combine(OPCODE_MAT_MUL_DECOUPLED_8x4, old(vecA[..]), old(accC[..]), s)
    {
      hide At8x4, Combine, Pos8x4, Columns8x4;
      ghost var vec, acc0 := vecA[..], accC[..];
      var reuse_lev := k_dim / COMPUTE_WAY;
      var reused, vecA_blck, elem_cnt, acc_blck := 0, 0, 0, 0;
      ghost var v := 0;
      Start8x4(vec, s, k_dim, acc0);
      var k := 0;
      while k < k_dim
        invariant k <= k_dim && vecA[..] == vec
        invariant k == v * reuse_lev + acc_blck && acc_blck < reuse_lev && reused == acc_blck
        invariant v <= 8 && vecA_blck == v % 8 && (v == 8 ==> acc_blck == 0) && elem_cnt == 0
        invariant At8x4(vec, s, k_dim, acc0, accC[..], v, acc_blck, 0, 0, 0)
      {
        assert v < 8;
        Broadcast(s, k);
        var ji := 0;
        while ji < NUM_BANKS
          invariant ji <= NUM_BANKS && vecA[..] == vec && elem_cnt == 0
          invariant forall x {:trigger vecB[x]} :: 0 <= x < ACC_SIZE ==> vecB[x] == s[32 * k + x % 32]
          invariant At8x4(vec, s, k_dim, acc0, accC[..], v, acc_blck, ji, 0, 0)
        {
          elem_cnt := Bank8x4(s, k_dim, k, vec, acc0, v, vecA_blck, acc_blck, ji);
          ji := ji + 1;
        }
        Roll8x4(vec, s, reuse_lev, acc0, accC[..], v, acc_blck, 16, 0, 0, v, acc_blck + 1, 0, 0);
        acc_blck := acc_blck + 1;
        if acc_blck == reuse_lev {
          acc_blck := 0;
        }
        reused := reused + 1;
        if reused == reuse_lev {
          Roll8x4(vec, s, reuse_lev, acc0, accC[..], v, reuse_lev, 0, 0, 0, v + 1, 0, 0, 0);
          reused := 0;
          vecA_blck := (vecA_blck + 1) % COMPUTE_WAY;
          v := v + 1;
        }
        k := k + 1;
      }
      AllTurns(v, reuse_lev, acc_blck);
      Finish8x4(vec, s, k_dim, acc0, accC[..]);
    }

    /** Four bursts of eight lanes in one bank. */
    method Bank8x4(ghost s: seq<int>, ghost k_dim: nat, ghost k: nat, ghost vec: seq<int>, ghost acc0: seq<int>,
                   ghost v: nat, vecA_blck: nat, acc_blck: nat, ji: nat)
      returns (elem_cnt: nat)
      requires Valid() && vecA[..] == vec && ji < 16 && v < 8 && vecA_blck == v
      requires 0 < k_dim <= 32 && k_dim % 8 == 0 && |s| == 32 * k_dim && acc_blck < k_dim / 8 &&
        k == v * (k_dim / 8) + acc_blck
      requires k < k_dim
      requires forall x {:trigger vecB[x]} :: 0 <= x < ACC_SIZE ==> vecB[x] == s[32 * k + x % 32]
      requires At8x4(vec, s, k_dim, acc0, accC[..], v, acc_blck, ji, 0, 0)
      modifies accC
      ensures elem_cnt == 0 && At8x4(vec, s, k_dim, acc0, accC[..], v, acc_blck, ji + 1, 0, 0)
    {
      hide At8x4, Pos8x4, Columns8x4;
      ghost var reuse := k_dim / 8;
      elem_cnt := 0;
      var burst := 0;
      while burst < BL
        invariant burst <= BL && elem_cnt == burst % 4
        invariant At8x4(vec, s, k_dim, acc0, accC[..], v, acc_blck, ji, burst, 0)
      {
        Burst8x4(s, reuse, k, vec, acc0, v, vecA_blck, acc_blck, ji, burst, elem_cnt);
        Roll8x4(vec, s, reuse, acc0, accC[..], v, acc_blck, ji, burst, 8, v, acc_blck, ji, burst + 1);
        elem_cnt := elem_cnt + 1;
        if elem_cnt == BL {
          elem_cnt := 0;
        }
        burst := burst + 1;
      }
      Roll8x4(vec, s, reuse, acc0, accC[..], v, acc_blck, ji, 4, 0, v, acc_blck, ji + 1, 0);
    }

    /** The eight lanes of one burst. */
    method Burst8x4(ghost s: seq<int>, ghost reuse: nat, ghost k: nat, ghost vec: seq<int>, ghost acc0: seq<int>,
                    ghost v: nat, vecA_blck: nat, acc_blck: nat, ji: nat, burst: nat, elem_cnt: nat)
      requires Valid() && vecA[..] == vec && ji < 16 && v < 8 && vecA_blck == v && burst < 4 && elem_cnt == burst
      requires 0 < reuse <= 4 && |s| == 32 * (8 * reuse) && acc_blck < reuse && k == v * reuse + acc_blck &&
        k < 8 * reuse
      requires forall x {:trigger vecB[x]} :: 0 <= x < ACC_SIZE ==> vecB[x] == s[32 * k + x % 32]
      requires At8x4(vec, s, 8 * reuse, acc0, accC[..], v, acc_blck, ji, burst, 0)
      modifies accC
      ensures At8x4(vec, s, 8 * reuse, acc0, accC[..], v, acc_blck, ji, burst, 8)
    {
      hide At8x4, Pos8x4, Columns8x4;
      var alu := 0;
      while alu < COMPUTE_WAY
        invariant alu <= COMPUTE_WAY
        invariant At8x4(vec, s, 8 * reuse, acc0, accC[..], v, acc_blck, ji, burst, alu)
      {
        Step8x4(vec, s, reuse, acc0, accC[..], v, acc_blck, k, ji, burst, alu);
        Index8x4(ji, burst, alu);
        accC[ji * 32 + acc_blck * COMPUTE_WAY + alu] := accC[ji * 32 + acc_blck * COMPUTE_WAY + alu]
          + vecB[ji * 32 + burst * COMPUTE_WAY + alu] * vecA[ji * 32 + (vecA_blck * BL + elem_cnt)];
        alu := alu + 1;
      }
    }

    /** One panel of 32 vectors in 32x1 mode. */
    method Stream32x1(s: seq<int>)
      requires Valid() && |s| == 32 * REG_SIZE
      modifies vecB, accC
      ensures accC[..] == Combine(OPCODE_MAT_MUL_DECOUPLED_32x1, old(vecA[..]), old(accC[..]), s)
    {
      hide At32x1, Combine, Columns32x1;
      ghost var vec, acc0 := vecA[..], accC[..];
      Start32x1(vec, s, acc0);
      var k := 0;
      while k < REG_SIZE
        invariant k <= REG_SIZE && vecA[..] == vec
        invariant At32x1(vec, s, acc0, accC[..], k, 0, 0)
      {
        Broadcast(s, k);
        var ji := 0;
        while ji < NUM_BANKS
          invariant ji <= NUM_BANKS && vecA[..] == vec
          invariant forall x {:trigger vecB[x]} :: 0 <= x < ACC_SIZE ==> vecB[x] == s[32 * k + x % 32]
          invariant At32x1(vec, s, acc0, accC[..], k, ji, 0)
        {
          var ii := 0;
          while ii < REG_SIZE
            invariant ii <= REG_SIZE && vecA[..] == vec
            invariant forall x {:trigger vecB[x]} :: 0 <= x < ACC_SIZE ==> vecB[x] == s[32 * k + x % 32]
            invariant At32x1(vec, s, acc0, accC[..], k, ji, ii)
          {
            Step32x1(vec, s, acc0, accC[..], k, ji, ii);
            assert (ji * 32 + ii) % 32 == ii;
            accC[ji * 32 + ii] := accC[ji * 32 + ii] + vecB[ji * 32 + ii] * vecA[ji * 32 + k];
            ii := ii + 1;
          }
          Roll32x1(vec, s, acc0, accC[..], k, ji, 32, k, ji + 1);
          ji := ji + 1;
        }
        Roll32x1(vec, s, acc0, accC[..], k, 16, 0, k + 1, 0);
        k := k + 1;
      }
      Finish32x1(vec, s, acc0, accC[..]);
    }
  }

  /** After 8 * reuse vectors the counters have gone round exactly eight times. */
  lemma AllTurns(v: nat, reuse: nat, a: nat)
    requires v * reuse + a == 8 * reuse && a < reuse && v <= 8
    ensures v == 8 && a == 0
  {
    assert v < 8 ==> v * reuse + reuse <= 8 * reuse;
  }
}
