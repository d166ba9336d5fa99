/**
 Submitting a chain to the DMA engine: `dma_sg_tx`. The interrupt build cuts the chain into runs of at
 most 255 descriptors, because the completion counter of the engine has eight bits; the polling build
 submits it in one shot. A submission names its first and its last descriptor, and the engine follows
 the links from one to the other.

 What the waits return is a parameter: wait number n of a run has outcome `waits(n)`.
 */
module SgTx {
  import opened Machine
  import opened DescMem

  const CDMA_MAX_COALESCE: nat := 0xff
  const EDMA_TX: int := 4
  const EDMA_INTR: int := 5

  /** CURDESC, TAILDESC and the coalesce count written to CR. */
  datatype Submission = Submission(start: int, end: int, coalesce: nat)

  /** What a wait comes back with: the jiffies left (0 on timeout) and the error the handler recorded. */
  datatype Wait = Wait(jiffies: nat, err: int)

  /** What the driver does to the engine, in order. */
  datatype Event = Submitted(s: Submission) | Observed(ret: int)

  /** The driver's verdict on one wait: below zero it gives up. The single-run branch ignores `err`. */
  function Verdict(w: Wait, checkErr: bool): int {
    if w.jiffies == 0 then -EDMA_TX else if checkErr && w.err < 0 then -EDMA_INTR else w.jiffies
  }

  /**
   What a return value tells about the last wait: it timed out, it recorded an error where the branch looks at it, or
   it left that many jiffies.
   */
  predicate Told(ret: int, w: Wait, checkErr: bool) {
    && (ret == -EDMA_TX <==> w.jiffies == 0)
    && (ret == -EDMA_INTR <==> w.jiffies > 0 && w.err < 0 && checkErr)
    && (ret != -EDMA_TX && ret != -EDMA_INTR ==> ret == w.jiffies)
  }

  /** A wait that came back in time and recorded no error. */
  predicate Good(w: Wait) {
    w.jiffies > 0 && w.err >= 0
  }

  /**
   The engine together with the device behind it. A submission whose wait is good has been executed to its
   last descriptor; after any other wait the device may be in any state, `broken(n)` for wait number n.
   */
  class SgEngine {
    const platform: Platform
    const waits: nat -> Wait
    ghost const broken: nat -> State
    ghost var device: State
    var log: seq<Event>
    var waited: nat

    constructor (platform: Platform, waits: nat -> Wait, ghost broken: nat -> State, ghost device: State)
      ensures this.platform == platform && this.waits == waits && this.broken == broken && this.device == device
      ensures log == [] && waited == 0
    {
      this.platform, this.waits, log, waited := platform, waits, [], 0;
      this.broken, this.device := broken, device;
    }

    /** One submission and the wait for it. */
    method SubmitAndWait(ghost words: seq<int>, start: int, end: int, coalesce: nat, checkErr: bool) returns (ret: int)
      modifies this
      ensures device == Settled(platform, words, Submission(start, end, coalesce), waits(old(waited)),
        broken(old(waited)), old(device))
      ensures waited == old(waited) + 1 && ret == Verdict(waits(old(waited)), checkErr)
      ensures ret == -EDMA_TX <==> waits(old(waited)).jiffies == 0
      ensures ret == -EDMA_INTR <==> waits(old(waited)).jiffies > 0 && waits(old(waited)).err < 0 && checkErr
      ensures ret != -EDMA_TX && ret != -EDMA_INTR ==> ret == waits(old(waited)).jiffies
      ensures log == old(log) + [Submitted(Submission(start, end, coalesce)), Observed(ret)]
    {
      log := log + [Submitted(Submission(start, end, coalesce))];
      var w := waits(waited);
      device := Settled(platform, words, Submission(start, end, coalesce), w, broken(waited), device);
      waited := waited + 1;
      ret := w.jiffies;
      if ret == 0 {
        ret := -EDMA_TX;
      } else if checkErr && w.err < 0 {
        ret := -EDMA_INTR;
      }
      log := log + [Observed(ret)];
    }

    /** The interrupt build of `dma_sg_tx`, over the descriptor memory `words`. */
    method DmaSgTx(ghost words: seq<int>, desc_idx: nat, next_desc: int) returns (ret: int)
      modifies this
      ensures var plan := Plan(platform.DescMemBase(), desc_idx, next_desc);
        var n := waited - old(waited);
        var verdicts := Verdicts(waits, old(waited), desc_idx);
        && 0 < n <= |plan| && log == old(log) + Trace(plan, verdicts, n)
        && AllDone(verdicts, n - 1) && ret == verdicts(n - 1) && (ret >= 0 ==> n == |plan|)
        && device == DeviceAfter(platform, words, plan, waits, broken, old(waited), n, old(device))
      ensures waited > 0
      ensures ret == -EDMA_TX <==> waits(waited - 1).jiffies == 0
      ensures ret == -EDMA_INTR <==>
        waits(waited - 1).jiffies > 0 && waits(waited - 1).err < 0 && desc_idx >= CDMA_MAX_COALESCE
      ensures ret != -EDMA_TX && ret != -EDMA_INTR ==> ret == waits(waited - 1).jiffies
    {
      hide Plan, Trace, Verdict, DeviceAfter, Settled;
      var base := platform.DescMemBase();
      ghost var plan, verdicts := Plan(base, desc_idx, next_desc), Verdicts(waits, waited, desc_idx);
      TraceStart(plan, verdicts);
      DeviceStart(platform, words, plan, waits, broken, waited, device);
      if desc_idx < CDMA_MAX_COALESCE {
        OneRun(base, desc_idx, next_desc);
        TraceStep(plan, verdicts, 0);
        DeviceStep(platform, words, plan, waits, broken, waited, 0, device);
        ret := SubmitAndWait(words, base, next_desc - 0x40, desc_idx, false);
      } else {
        var chunk_desc, remain_desc := desc_idx / CDMA_MAX_COALESCE, desc_idx % CDMA_MAX_COALESCE;
        var end_desc;
        ret, end_desc := SubmitChunks(words, plan, verdicts, desc_idx, next_desc, chunk_desc);
        PlanLength(base, desc_idx, next_desc);
        if ret >= 0 && remain_desc != 0 {
          TraceStep(plan, verdicts, chunk_desc);
          DeviceStep(platform, words, plan, waits, broken, old(waited), chunk_desc, old(device));
          LastRun(base, desc_idx, next_desc);
          ret := SubmitAndWait(words, end_desc + 0x40, next_desc - 0x40, remain_desc, true);
        }
      }
    }

    /** The loop over the full chunks; it ends early when a wait fails. */
    method SubmitChunks(ghost words: seq<int>, ghost plan: seq<Submission>, ghost verdicts: nat -> int,
                        ghost desc_idx: nat, ghost next_desc: int, chunk_desc: nat)
      returns (ret: int, end_desc: int)
      requires desc_idx >= CDMA_MAX_COALESCE && chunk_desc == desc_idx / CDMA_MAX_COALESCE
      requires plan == Plan(platform.DescMemBase(), desc_idx, next_desc) &&
        verdicts == Verdicts(waits, waited, desc_idx)
      modifies this
      ensures var n := waited - old(waited);
        && 0 < n <= |plan| && log == old(log) + Trace(plan, verdicts, n)
        && AllDone(verdicts, n - 1) && ret == verdicts(n - 1) && Told(ret, waits(waited - 1), true)
        && device == DeviceAfter(platform, words, plan, waits, broken, old(waited), n, old(device))
        && (ret >= 0 ==> n == chunk_desc && ret > 0
                         && end_desc == platform.DescMemBase() + 0x40 * (CDMA_MAX_COALESCE * chunk_desc - 1))
    {
      hide Plan, Trace, Verdict, DeviceAfter, Settled;
      var base := platform.DescMemBase();
      TraceStart(plan, verdicts);
      DeviceStart(platform, words, plan, waits, broken, waited, device);
      PlanLength(base, desc_idx, next_desc);
      ret, end_desc := 0, 0;
      var k := 0;
      while k < chunk_desc
        invariant k <= chunk_desc && waited == old(waited) + k && log == old(log) + Trace(plan, verdicts, k)
        invariant AllDone(verdicts, k)
        invariant device == DeviceAfter(platform, words, plan, waits, broken, old(waited), k, old(device))
        invariant k > 0 ==> Told(ret, waits(waited - 1), true)
        invariant k > 0 ==> ret == verdicts(k - 1) && end_desc == base + 0x40 * (CDMA_MAX_COALESCE * k - 1)
      {
        ChunkRun(base, desc_idx, next_desc, k);
        TraceStep(plan, verdicts, k);
        DeviceStep(platform, words, plan, waits, broken, old(waited), k, old(device));
        var offset := k * CDMA_MAX_COALESCE * 0x40;
        var start_desc := base + offset;
        end_desc := start_desc + (CDMA_MAX_COALESCE - 1) * 0x40;
        ret := SubmitAndWait(words, start_desc, end_desc, CDMA_MAX_COALESCE, true);
        if ret < 0 {
          return;
        }
        VerdictSign(waits(old(waited) + k), true);
        k := k + 1;
      }
    }
  }

  lemma VerdictSign(w: Wait, checkErr: bool)
    ensures Verdict(w, checkErr) != 0
  {
  }

  lemma TraceStart(plan: seq<Submission>, verdicts: nat -> int)
    ensures Trace(plan, verdicts, 0) == []
  {
  }

  lemma OneRun(base: int, desc_idx: nat, next_desc: int)
    requires desc_idx < CDMA_MAX_COALESCE
    ensures Plan(base, desc_idx, next_desc) == [Submission(base, next_desc - 0x40, desc_idx)]
  {
  }

  lemma PlanLength(base: int, desc_idx: nat, next_desc: int)
    requires desc_idx >= CDMA_MAX_COALESCE
    ensures 0 < desc_idx / CDMA_MAX_COALESCE
    ensures |Plan(base, desc_idx, next_desc)| ==
      desc_idx / CDMA_MAX_COALESCE + if desc_idx % CDMA_MAX_COALESCE == 0 then 0 else 1
  {
  }

  lemma ChunkRun(base: int, desc_idx: nat, next_desc: int, k: nat)
    requires k < desc_idx / CDMA_MAX_COALESCE
    ensures k < |Plan(base, desc_idx, next_desc)|
    ensures Plan(base, desc_idx, next_desc)[k] ==
      Submission(base + k * CDMA_MAX_COALESCE * 0x40,
        base + k * CDMA_MAX_COALESCE * 0x40 + (CDMA_MAX_COALESCE - 1) * 0x40, CDMA_MAX_COALESCE)
  {
  }

  lemma LastRun(base: int, desc_idx: nat, next_desc: int)
    requires desc_idx >= CDMA_MAX_COALESCE && desc_idx % CDMA_MAX_COALESCE != 0
    ensures var n := desc_idx / CDMA_MAX_COALESCE;
      n < |Plan(base, desc_idx, next_desc)| && Plan(base, desc_idx, next_desc)[n] ==
        Submission(base + 0x40 * (CDMA_MAX_COALESCE * n - 1) + 0x40, next_desc - 0x40, desc_idx % CDMA_MAX_COALESCE)
  {
  }

  /** All the submissions for one chain, if nothing fails. */
  function Plan(base: int, desc_idx: nat, next_desc: int): (plan: seq<Submission>)
    ensures |plan| > 0
  {
    if desc_idx < CDMA_MAX_COALESCE then [Submission(base, next_desc - 0x40, desc_idx)]
    else FullChunks(base, desc_idx / CDMA_MAX_COALESCE)
         + if desc_idx % CDMA_MAX_COALESCE == 0 then []
           else [Submission(base + 0x40 * (CDMA_MAX_COALESCE * (desc_idx / CDMA_MAX_COALESCE)), next_desc - 0x40,
                            desc_idx % CDMA_MAX_COALESCE)]
  }

  /** The first n full chunks. */
  function FullChunks(base: int, n: nat): (plan: seq<Submission>)
    ensures |plan| == n
  {
    seq(n, k requires 0 <= k < n =>
      Submission(base + 0x40 * (CDMA_MAX_COALESCE * k), base + 0x40 * (CDMA_MAX_COALESCE * k + CDMA_MAX_COALESCE - 1),
        CDMA_MAX_COALESCE))
  }

  function Verdicts(waits: nat -> Wait, first: nat, desc_idx: nat): nat -> int {
    (k: nat) => Verdict(waits(first + k), desc_idx >= CDMA_MAX_COALESCE)
  }

  ghost predicate AllDone(verdicts: nat -> int, n: nat) {
    forall k: nat {:trigger verdicts(k)} :: k < n ==> verdicts(k) > 0
  }

  /** The first n submissions, each followed by what its wait came back with. */
  function Trace(plan: seq<Submission>, verdicts: nat -> int, n: nat): (log: seq<Event>)
    requires n <= |plan|
    ensures |log| == 2 * n
  {
    if n == 0 then [] else Trace(plan, verdicts, n - 1) + [Submitted(plan[n - 1]), Observed(verdicts(n - 1))]
  }

  lemma TraceStep(plan: seq<Submission>, verdicts: nat -> int, n: nat)
    requires n < |plan|
    ensures Trace(plan, verdicts, n + 1) == Trace(plan, verdicts, n) + [Submitted(plan[n]), Observed(verdicts(n))]
  {
  }

  // ----- what the engine does to the device

  /** The numbers a, a + 1, ..., b - 1. */
  function Range(a: nat, b: nat): (r: seq<nat>)
    ensures |r| == if a <= b then b - a else 0
  {
    if a <= b then seq(b - a, i requires 0 <= i < b - a => a + i) else []
  }

  /** The engine starts at entry cur and follows the links until it has done the one at address tail. */
  function Walk(words: seq<int>, base: int, cur: int, tail: int, fuel: nat): seq<nat>
    decreases fuel
  {
    if fuel == 0 || cur < base then [] else
      var i := (cur - base) / 0x40;
      [i] + if cur == tail then [] else Walk(words, base, NextAt(words, i), tail, fuel - 1)
  }

  /** The entries one submission visits; a walk longer than the memory would be going round in a circle. */
  function Visits(words: seq<int>, base: int, s: Submission): seq<nat> {
    Walk(words, base, s.start, s.end, |words| / 16)
  }

  function Entries(words: seq<int>, vs: seq<nat>): (ds: seq<Desc>)
    ensures |ds| == |vs|
  {
    seq(|vs|, i requires 0 <= i < |vs| => EntryAt(words, vs[i]))
  }

  /** The device once the wait for submission s came back. */
  function Settled(pf: Platform, words: seq<int>, s: Submission, w: Wait, broken: State, st: State): State {
    if Good(w) then Exec(pf, Entries(words, Visits(words, pf.DescMemBase(), s)), st) else broken
  }

  /** The device after n submissions and their waits, of which the first is wait number `first`. */
  function DeviceAfter(pf: Platform, words: seq<int>, plan: seq<Submission>, waits: nat -> Wait, broken: nat -> State,
                       first: nat, n: nat, st: State): State
    requires n <= |plan|
  {
    if n == 0 then st else
      Settled(pf, words, plan[n - 1], waits(first + n - 1), broken(first + n - 1),
              DeviceAfter(pf, words, plan, waits, broken, first, n - 1, st))
  }

  lemma DeviceStart(pf: Platform, words: seq<int>, plan: seq<Submission>, waits: nat -> Wait, broken: nat -> State,
                    first: nat, st: State)
    ensures DeviceAfter(pf, words, plan, waits, broken, first, 0, st) == st
  {
  }

  lemma DeviceStep(pf: Platform, words: seq<int>, plan: seq<Submission>, waits: nat -> Wait, broken: nat -> State,
                   first: nat, n: nat, st: State)
    requires n < |plan|
    ensures DeviceAfter(pf, words, plan, waits, broken, first, n + 1, st)
         == Settled(pf, words, plan[n], waits(first + n), broken(first + n),
                    DeviceAfter(pf, words, plan, waits, broken, first, n, st))
  {
  }
}
