/**
 What chunked submission does to a chain: which descriptors the engine visits, in which order, and that
 executing them refines executing the chain in one shot.
 */
module SgTxResults {
  import opened Machine
  import opened DescMem
  import opened SgTx

  /** The entries the first n submissions visit, in order. */
  function AllVisits(words: seq<int>, base: int, plan: seq<Submission>, n: nat): seq<nat>
    requires n <= |plan|
  {
    if n == 0 then [] else AllVisits(words, base, plan, n - 1) + Visits(words, base, plan[n - 1])
  }

  lemma WalkStep(words: seq<int>, base: int, a: nat, b: nat, fuel: nat)
    requires a <= b && fuel > 0
    requires a < b ==> NextAt(words, a) == base + 0x40 * (a + 1)
    ensures Walk(words, base, base + 0x40 * a, base + 0x40 * b, fuel) ==
      [a] + if a == b then [] else Walk(words, base, base + 0x40 * (a + 1), base + 0x40 * b, fuel - 1)
  {
    hide NextAt;
    assert (0x40 * a) / 0x40 == a;
  }

  lemma {:induction false} WalkLinks(words: seq<int>, base: int, a: nat, b: nat, fuel: nat)
    requires a <= b && fuel > b - a
    requires forall i: nat {:trigger NextAt(words, i)} :: a <= i < b ==> NextAt(words, i) == base + 0x40 * (i + 1)
    ensures Walk(words, base, base + 0x40 * a, base + 0x40 * b, fuel) == Range(a, b + 1)
    decreases b - a
  {
    hide Walk, NextAt;
    assert a < b ==> NextAt(words, a) == base + 0x40 * (a + 1);
    WalkStep(words, base, a, b, fuel);
    if a < b {
      WalkLinks(words, base, a + 1, b, fuel - 1);
      assert Range(a, b + 1) == [a] + Range(a + 1, b + 1);
    } else {
      assert Range(a, b + 1) == [a];
    }
  }

  lemma WalkRange(words: seq<int>, pf: Platform, n: nat, a: nat, b: nat, fuel: nat)
    requires Linked(words, pf, n) && a <= b < n && fuel > b - a
    ensures Walk(words, pf.DescMemBase(), pf.DescMemBase() + 0x40 * a, pf.DescMemBase() + 0x40 * b, fuel) ==
      Range(a, b + 1)
  {
    hide Walk, NextAt, Range;
    WalkLinks(words, pf.DescMemBase(), a, b, fuel);
  }

  /** Chunk k of a chain visits descriptors 255 * k to 255 * k + 254. */
  lemma ChunkVisits(words: seq<int>, pf: Platform, desc_idx: nat, k: nat)
    requires Linked(words, pf, desc_idx + 1) && 16 * (desc_idx + 1) <= |words|
    requires k < desc_idx / CDMA_MAX_COALESCE
    ensures var plan := Plan(pf.DescMemBase(), desc_idx, pf.DescMemBase() + 0x40 * (desc_idx + 1));
      && k < |plan| && plan[k].coalesce == CDMA_MAX_COALESCE
      && Visits(words, pf.DescMemBase(), plan[k]) == Range(255 * k, 255 * (k + 1))
  {
    hide Linked, Walk, Range;
    ChunkRun(pf.DescMemBase(), desc_idx, pf.DescMemBase() + 0x40 * (desc_idx + 1), k);
    assert 255 * k + 254 <= desc_idx;
    WalkRange(words, pf, desc_idx + 1, 255 * k, 255 * k + 254, |words| / 16);
  }

  /** The last submission that is no full chunk runs up to the final descriptor. */
  lemma TailVisits(words: seq<int>, pf: Platform, desc_idx: nat)
    requires Linked(words, pf, desc_idx + 1) && 16 * (desc_idx + 1) <= |words|
    requires FinalSubmitted(desc_idx)
    ensures var plan := Plan(pf.DescMemBase(), desc_idx, pf.DescMemBase() + 0x40 * (desc_idx + 1));
      var n := desc_idx / CDMA_MAX_COALESCE;
      && |plan| == n + 1 && plan[n].coalesce == desc_idx % CDMA_MAX_COALESCE
      && Visits(words, pf.DescMemBase(), plan[n]) == Range(255 * n, desc_idx + 1)
  {
    hide Linked, Walk, Range;
    var base, n := pf.DescMemBase(), desc_idx / CDMA_MAX_COALESCE;
    if desc_idx >= CDMA_MAX_COALESCE {
      PlanLength(base, desc_idx, base + 0x40 * (desc_idx + 1));
      LastRun(base, desc_idx, base + 0x40 * (desc_idx + 1));
    }
    assert 255 * n <= desc_idx;
    WalkRange(words, pf, desc_idx + 1, 255 * n, desc_idx, |words| / 16);
  }

  /** The interrupt build leaves the final descriptor out exactly when desc_idx is a nonzero multiple of 255. */
  predicate FinalSubmitted(desc_idx: nat) {
    desc_idx == 0 || desc_idx % CDMA_MAX_COALESCE != 0
  }

  /** The number of descriptors a whole plan submits. */
  function SubmittedCount(desc_idx: nat): nat {
    if FinalSubmitted(desc_idx) then desc_idx + 1 else desc_idx
  }

  function PlanOf(pf: Platform, desc_idx: nat): (plan: seq<Submission>)
    ensures |plan| == desc_idx / CDMA_MAX_COALESCE + if FinalSubmitted(desc_idx) then 1 else 0
  {
    Plan(pf.DescMemBase(), desc_idx, pf.DescMemBase() + 0x40 * (desc_idx + 1))
  }

  lemma RangeConcat(a: nat, b: nat, c: nat)
    requires a <= b <= c
    ensures Range(a, b) + Range(b, c) == Range(a, c)
  {
  }

  /**
   The first n submissions visit a prefix of the chain, each descriptor once and in order; a prefix of whole
   chunks as long as a submission is missing.
   */
  lemma {:induction false} VisitedInOrder(words: seq<int>, pf: Platform, desc_idx: nat, n: nat)
    requires Linked(words, pf, desc_idx + 1) && 16 * (desc_idx + 1) <= |words| && n <= |PlanOf(pf, desc_idx)|
    ensures AllVisits(words, pf.DescMemBase(), PlanOf(pf, desc_idx), n) ==
      Range(0, if n == |PlanOf(pf, desc_idx)| then SubmittedCount(desc_idx) else 255 * n)
  {
    hide Linked, Visits, Range;
    if n == 0 {
    } else {
      VisitedInOrder(words, pf, desc_idx, n - 1);
      if n - 1 < desc_idx / CDMA_MAX_COALESCE {
        ChunkVisits(words, pf, desc_idx, n - 1);
        RangeConcat(0, 255 * (n - 1), 255 * n);
      } else {
        TailVisits(words, pf, desc_idx);
        RangeConcat(0, 255 * (n - 1), desc_idx + 1);
      }
    }
  }

  /** The completion counter fits eight bits, and counts every descriptor of a run but the final one. */
  lemma CoalesceCounts(words: seq<int>, pf: Platform, desc_idx: nat, k: nat)
    requires Linked(words, pf, desc_idx + 1) && 16 * (desc_idx + 1) <= |words| && k < |PlanOf(pf, desc_idx)|
    ensures var s, vs := PlanOf(pf, desc_idx)[k], Visits(words, pf.DescMemBase(), PlanOf(pf, desc_idx)[k]);
      s.coalesce <= 255 && s.coalesce == if vs != [] && vs[|vs| - 1] == desc_idx then |vs| - 1 else |vs|
  {
    hide Linked, Visits;
    if k < desc_idx / CDMA_MAX_COALESCE {
      ChunkVisits(words, pf, desc_idx, k);
    } else {
      TailVisits(words, pf, desc_idx);
    }
  }

  // ----- failures

  /** Every submission but the first follows the wait for the one before it, and that wait succeeded. */
  lemma {:induction false} NoEarlyStart(plan: seq<Submission>, verdicts: nat -> int, n: nat, x: nat)
    requires 0 < n <= |plan| && AllDone(verdicts, n - 1)
    requires x < 2 * n && Trace(plan, verdicts, n)[x].Submitted?
    ensures x % 2 == 0 && Trace(plan, verdicts, n)[x] == Submitted(plan[x / 2])
    ensures x > 0 ==> Trace(plan, verdicts, n)[x - 1].Observed? && Trace(plan, verdicts, n)[x - 1].ret > 0
  {
    if x < 2 * (n - 1) {
      NoEarlyStart(plan, verdicts, n - 1, x);
    } else if n > 1 {
      assert Trace(plan, verdicts, n - 1)[2 * (n - 1) - 1] == Observed(verdicts(n - 2));
    }
  }

  // ----- execution

  /** The machine after the first n submissions have run one after another. */
  function Executed(pf: Platform, words: seq<int>, plan: seq<Submission>, n: nat, st: State): State
    requires n <= |plan|
  {
    if n == 0 then st else
      Exec(pf, Entries(words, Visits(words, pf.DescMemBase(), plan[n - 1])), Executed(pf, words, plan, n - 1, st))
  }

  /** The n waits from number `first` on were all good. */
  ghost predicate AllGood(waits: nat -> Wait, first: nat, n: nat) {
    forall x: nat {:trigger waits(x)} :: first <= x < first + n ==> Good(waits(x))
  }

  /** As long as every wait is good, the device has executed the submissions one after another. */
  lemma {:induction false} GoodWaitsExecute(pf: Platform, words: seq<int>, plan: seq<Submission>, waits: nat -> Wait,
                                            broken: nat -> State, first: nat, n: nat, st: State)
    requires n <= |plan| && AllGood(waits, first, n)
    ensures DeviceAfter(pf, words, plan, waits, broken, first, n, st) == Executed(pf, words, plan, n, st)
  {
    hide Exec, Visits, Good;
    if n == 0 {
    } else {
      GoodWaitsExecute(pf, words, plan, waits, broken, first, n - 1, st);
      assert Good(waits(first + n - 1));
    }
  }

  /** The first wait of a call recorded an error, and the driver does not look at it. */
  predicate ErrorHidden(desc_idx: nat, w: Wait) {
    desc_idx < CDMA_MAX_COALESCE && w.jiffies > 0 && w.err < 0
  }

  lemma VerdictAt(waits: nat -> Wait, first: nat, desc_idx: nat, k: nat)
    ensures Verdicts(waits, first, desc_idx)(k) > 0
      <==> waits(first + k).jiffies > 0 && (desc_idx < CDMA_MAX_COALESCE || waits(first + k).err >= 0)
  {
    assert Verdicts(waits, first, desc_idx)(k) == Verdict(waits(first + k), desc_idx >= CDMA_MAX_COALESCE);
  }

  /**
   The driver reports success although a wait recorded an error exactly when the whole chain went out as a
   single run, in time, and its wait recorded one: that branch never looks at the error.
   */
  lemma HiddenError(pf: Platform, desc_idx: nat, waits: nat -> Wait, first: nat)
    ensures var n := |PlanOf(pf, desc_idx)|;
      AllDone(Verdicts(waits, first, desc_idx), n) &&
        (exists x: nat {:trigger waits(x)} :: first <= x < first + n && waits(x).err < 0)
      <==> ErrorHidden(desc_idx, waits(first))
  {
    var verdicts, n := Verdicts(waits, first, desc_idx), |PlanOf(pf, desc_idx)|;
    assert desc_idx < CDMA_MAX_COALESCE ==> n == 1;
    hide PlanOf, Verdicts;
    VerdictAt(waits, first, desc_idx, 0);
    forall x: nat {:trigger waits(x)} | AllDone(verdicts, n) && first <= x < first + n && waits(x).err < 0
      ensures ErrorHidden(desc_idx, waits(first))
    {
      VerdictAt(waits, first, desc_idx, x - first);
    }
  }

  /** A call the driver reports as a success saw only good waits, unless its error is hidden. */
  lemma SuccessIsGood(pf: Platform, desc_idx: nat, waits: nat -> Wait, first: nat)
    requires AllDone(Verdicts(waits, first, desc_idx), |PlanOf(pf, desc_idx)|) && !ErrorHidden(desc_idx, waits(first))
    ensures AllGood(waits, first, |PlanOf(pf, desc_idx)|)
  {
    HiddenError(pf, desc_idx, waits, first);
    hide PlanOf, Verdicts, ErrorHidden;
    forall x: nat {:trigger waits(x)} | first <= x < first + |PlanOf(pf, desc_idx)| ensures Good(waits(x)) {
      VerdictAt(waits, first, desc_idx, x - first);
    }
  }

  /** With a hidden error success is reported all the same, and the device may be in any state. */
  lemma HiddenBreaks(pf: Platform, words: seq<int>, desc_idx: nat, waits: nat -> Wait, broken: nat -> State,
                     first: nat, st: State)
    requires ErrorHidden(desc_idx, waits(first))
    ensures var n := |PlanOf(pf, desc_idx)|;
      n == 1 && AllDone(Verdicts(waits, first, desc_idx), n)
      && DeviceAfter(pf, words, PlanOf(pf, desc_idx), waits, broken, first, n, st) == broken(first)
  {
    HiddenError(pf, desc_idx, waits, first);
    assert |PlanOf(pf, desc_idx)| == 1;
    hide PlanOf, Verdicts, Exec, Visits;
    DeviceStep(pf, words, PlanOf(pf, desc_idx), waits, broken, first, 0, st);
  }

  lemma {:induction false} ExecutedVisits(pf: Platform, words: seq<int>, plan: seq<Submission>, n: nat, st: State)
    requires n <= |plan|
    ensures Executed(pf, words, plan, n, st) == Exec(pf, Entries(words, AllVisits(words, pf.DescMemBase(), plan, n)),
      st)
  {
    hide Visits, EntryAt, Step;
    if n == 0 {
    } else {
      var before, now := AllVisits(words, pf.DescMemBase(), plan, n - 1), Visits(words, pf.DescMemBase(), plan[n - 1]);
      ExecutedVisits(pf, words, plan, n - 1, st);
      assert Entries(words, before + now) == Entries(words, before) + Entries(words, now);
      ExecConcat(pf, Entries(words, before), Entries(words, now), st);
    }
  }

  /** Chunked submission of a compiled chain executes its first SubmittedCount descriptors, as one chain. */
  lemma ChunksExecuteChain(pf: Platform, w0: seq<int>, w: seq<int>, ds: seq<Desc>, st: State)
    requires Compiled(w0, w, pf, ds) && |ds| > 0
    ensures var desc_idx := |ds| - 1; var plan := PlanOf(pf, desc_idx);
      Executed(pf, w, plan, |plan|, st) == Exec(pf, ds[..SubmittedCount(desc_idx)], st)
  {
    hide Linked, Exec, AllVisits, Executed, PlanOf;
    var desc_idx, plan := |ds| - 1, PlanOf(pf, |ds| - 1);
    ExecutedVisits(pf, w, plan, |plan|, st);
    VisitedInOrder(w, pf, desc_idx, |plan|);
    var m := SubmittedCount(desc_idx);
    forall i | 0 <= i < m ensures Entries(w, Range(0, m))[i] == ds[i] {
      assert Chain(w, |ds|)[i] == EntryAt(w, i);
    }
    assert Entries(w, Range(0, m)) == ds[..m];
  }

  /** The n submissions seen to complete before a failing one executed n whole chunks: a prefix of the chain. */
  lemma FailureExecutesPrefix(pf: Platform, w0: seq<int>, w: seq<int>, ds: seq<Desc>, n: nat, st: State)
    requires Compiled(w0, w, pf, ds) && |ds| > 0 && n < |PlanOf(pf, |ds| - 1)|
    ensures 255 * n <= |ds| && Executed(pf, w, PlanOf(pf, |ds| - 1), n, st) == Exec(pf, ds[..255 * n], st)
  {
    hide Linked, Exec, AllVisits, Executed;
    var desc_idx, plan := |ds| - 1, PlanOf(pf, |ds| - 1);
    ExecutedVisits(pf, w, plan, n, st);
    VisitedInOrder(w, pf, desc_idx, n);
    forall i | 0 <= i < 255 * n ensures Entries(w, Range(0, 255 * n))[i] == ds[i] {
      assert Chain(w, |ds|)[i] == EntryAt(w, i);
    }
    assert Entries(w, Range(0, 255 * n)) == ds[..255 * n];
  }

  /** The polling build: one submission, from the first descriptor to the final one. */
  function PollingPlan(pf: Platform, desc_idx: nat): seq<Submission> {
    [Submission(pf.DescMemBase(), pf.DescMemBase() + 0x40 * (desc_idx + 1) - 0x40, 0)]
  }

  lemma PollingExecutesChain(pf: Platform, w0: seq<int>, w: seq<int>, ds: seq<Desc>, st: State)
    requires Compiled(w0, w, pf, ds) && |ds| > 0
    ensures Executed(pf, w, PollingPlan(pf, |ds| - 1), 1, st) == Exec(pf, ds, st)
  {
    hide Linked, Exec, Walk;
    WalkRange(w, pf, |ds|, 0, |ds| - 1, |w| / 16);
    assert Visits(w, pf.DescMemBase(), PollingPlan(pf, |ds| - 1)[0]) == Range(0, |ds|);
    assert Entries(w, Range(0, |ds|)) == Chain(w, |ds|) == ds;
  }

  /** The last descriptor of ds writes the end-of-job marker and does nothing else. */
  predicate EndsWithMarker(pf: Platform, ds: seq<Desc>) {
    |ds| > 0 && Command(ds[|ds| - 1].info) == 0 && ds[|ds| - 1].da == pf.HpcClearAddr()
  }

  /**
   The interrupt build refines the polling build: memory and registers end up the same for every chain that
   ends with the marker; the marker itself is missing exactly when desc_idx is a nonzero multiple of 255
   (and nothing before the last descriptor has written it).
   */
  lemma ChunkedRefinesPolling(pf: Platform, w0: seq<int>, w: seq<int>, ds: seq<Desc>, st: State)
    requires Compiled(w0, w, pf, ds) && EndsWithMarker(pf, ds)
    ensures var desc_idx := |ds| - 1; var plan := PlanOf(pf, desc_idx);
      var chunked, polled := Executed(pf, w, plan, |plan|, st), Executed(pf, w, PollingPlan(pf, desc_idx), 1, st);
      && chunked.dram == polled.dram && chunked.vec == polled.vec && chunked.acc == polled.acc
      && polled.hpcCleared
      && chunked.hpcCleared == (FinalSubmitted(desc_idx) || Exec(pf, ds[..desc_idx], st).hpcCleared)
  {
    hide Compiled, Executed, Exec, PlanOf, PollingPlan;
    ChunksExecuteChain(pf, w0, w, ds, st);
    PollingExecutesChain(pf, w0, w, ds, st);
    var n := |ds| - 1;
    assert ds[..n] + [ds[n]] == ds == ds[..n + 1];
    ExecSnoc(pf, ds[..n], ds[n], st);
  }
}
