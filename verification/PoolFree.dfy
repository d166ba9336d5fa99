/**
 What `pim_free` does: exactly undoing a small block, and the walk that frees a large block by its flags.
 A block reused by the tail search has the flag set on its last pool too, so the walk may run past it.
 */
module PoolFree {
  import opened PoolBits
  import opened PoolHeap
  import opened PoolInv

  // ----- finding the block

  lemma {:induction false} PoolOfIs(h: Heap, addr: int, k: nat, i: nat)
    requires Shape(h) && k <= i < |h.pools|
    requires h.pools[i].start <= addr < h.pools[i].start + HUGE_PAGE_SIZE
    ensures PoolOf(h, addr, k) == i
    decreases i - k
  {
    hide PoolShape;
    if k < i {
      PoolOfIs(h, addr, k + 1, i);
    }
  }

  /** The range test finds exactly the pool a block starts in. */
  lemma FindsBlock(h: Heap, live: set<Block>, b: Block)
    requires Inv(h, live) && b in live
    ensures b.pool < |h.pools| && PoolOf(h, Addr(h, b), 0) == b.pool
    ensures b.Small? ==> (Addr(h, b) - h.pools[b.pool].start) / PAGE_SIZE == b.page
  {
    hide AllApart, AllRecord, PoolShape;
    assert Fits(h.pools, b);
    PoolOfIs(h, Addr(h, b), 0, b.pool);
  }

  lemma SmallRecord(h: Heap, live: set<Block>, b: Block)
    requires Inv(h, live) && b in live && b.Small?
    ensures b.pool < |h.pools| && b.n > 0 && b.page + b.n <= NUM_PAGES
    ensures PoolShape(h.pools[b.pool]) && h.pools[b.pool].sizes[b.page] == b.n
    ensures AllAt(h.pools[b.pool].bits, b.page, b.n, '1')
    ensures !InLarge(live, b.pool) && !h.pools[b.pool].large
  {
    hide Shape, AllApart, AllRecord, PoolShape;
    assert Fits(h.pools, b);
    SmallShape(h, live, b);
    forall i: nat | b.page <= i < b.page + b.n ensures h.pools[b.pool].bits[i] == '1' {
      UsedPage(h, live, b, i);
    }
    SmallNotInLarge(h, live, b);
  }

  lemma SmallShape(h: Heap, live: set<Block>, b: Block)
    requires Inv(h, live) && b in live && b.Small?
    ensures b.pool < |h.pools| && PoolShape(h.pools[b.pool]) && |h.pools[b.pool].bits| == NUM_PAGES
  {
    assert Fits(h.pools, b);
  }

  lemma SmallNotInLarge(h: Heap, live: set<Block>, b: Block)
    requires Inv(h, live) && b in live && b.Small?
    ensures !InLarge(live, b.pool) && b.pool < |h.pools| && !h.pools[b.pool].large
  {
    hide Shape, AllFit;
    SmallShape(h, live, b);
    forall c | c in live && c.Large? ensures !(c.pool <= b.pool < c.pool + c.num) {
      assert Apart(b, c);
    }
    assert Records(h.pools[b.pool], b.pool, live);
  }

  // ----- small blocks

  lemma InSmallRemove(h: Heap, live: set<Block>, b: Block, k: nat, i: nat)
    requires Inv(h, live) && b in live && b.Small?
    ensures InSmall(live - {b}, k, i) <==> InSmall(live, k, i) && !(b.pool == k && b.page <= i < b.page + b.n)
    ensures InLarge(live - {b}, k) <==> InLarge(live, k)
  {
    hide Shape, AllFit, AllRecord;
    if InSmall(live, k, i) && !(b.pool == k && b.page <= i < b.page + b.n) {
      var c :| c in live && c.Small? && c.pool == k && c.page <= i < c.page + c.n;
      assert c in live - {b};
    }
    if InSmall(live - {b}, k, i) {
      var c :| c in live - {b} && c.Small? && c.pool == k && c.page <= i < c.page + c.n;
      assert Apart(b, c);
    }
    if InLarge(live, k) {
      var c :| c in live && c.Large? && c.pool <= k < c.pool + c.num;
      assert c in live - {b};
    }
  }

  lemma RecordsAfterClear(h: Heap, live: set<Block>, b: Block)
    requires Inv(h, live) && b in live && b.Small? && b.pool < |h.pools|
    requires |h.pools[b.pool].bits| == NUM_PAGES && b.page + b.n <= NUM_PAGES
    ensures Records(ClearBits(h.pools[b.pool], b.page, b.n), b.pool, live - {b})
  {
    hide InSmall, InLarge, CountFree, Paint, Shape, AllFit, AllApart;
    SmallRecord(h, live, b);
    assert Records(h.pools[b.pool], b.pool, live);
    forall i: nat {
      InSmallRemove(h, live, b, b.pool, i);
    }
    CountPaint(h.pools[b.pool].bits, b.page, b.n, '1', '0');
  }

  lemma RecordsWithout(h: Heap, live: set<Block>, b: Block, k: nat)
    requires Inv(h, live) && b in live && b.Small? && k < |h.pools| && k != b.pool
    ensures Records(h.pools[k], k, live - {b})
  {
    hide InSmall, InLarge, Shape, AllFit, AllApart;
    assert Records(h.pools[k], k, live);
    forall i: nat {
      InSmallRemove(h, live, b, k, i);
    }
  }

  lemma ShapeCleared(h: Heap, k: nat, page: nat, n: nat)
    requires Shape(h) && k < |h.pools| && page + n <= NUM_PAGES
    ensures Shape(h.(pools := h.pools[k := ClearBits(h.pools[k], page, n)]))
  {
  }

  lemma FitsCleared(pools: seq<Pool>, k: nat, page: nat, n: nat, c: Block)
    requires k < |pools| && page + n <= |pools[k].bits| && Fits(pools, c) && !(c.Large? && c.pool <= k < c.pool + c.num)
    ensures Fits(pools[k := ClearBits(pools[k], page, n)], c)
  {
  }

  lemma NoLargeAt(live: set<Block>, k: nat, c: Block)
    requires !InLarge(live, k) && c in live
    ensures !(c.Large? && c.pool <= k < c.pool + c.num)
  {
  }

  /** `pim_free` of a small block in use: its pages become free, nothing else changes, the invariant holds. */
  lemma FreeSmallKeepsInv(h: Heap, live: set<Block>, b: Block)
    requires Inv(h, live) && b in live && b.Small?
    ensures b.pool < |h.pools| && b.page + b.n <= |h.pools[b.pool].bits|
    ensures Free(h, Addr(h, b)) == Some(h.(pools := h.pools[b.pool := ClearBits(h.pools[b.pool], b.page, b.n)]))
    ensures Inv(Free(h, Addr(h, b)).value, live - {b})
  {
    hide Fits, Records, Apart, PoolShape, InSmall, InLarge, ClearBits;
    SmallRecord(h, live, b);
    SmallShape(h, live, b);
    FindsBlock(h, live, b);
    ShapeCleared(h, b.pool, b.page, b.n);
    var pools := h.pools[b.pool := ClearBits(h.pools[b.pool], b.page, b.n)];
    forall c | c in live - {b} ensures Fits(pools, c) {
      NoLargeAt(live, b.pool, c);
      FitsCleared(h.pools, b.pool, b.page, b.n, c);
    }
    forall k: nat | k < |pools| ensures Records(pools[k], k, live - {b}) {
      if k == b.pool {
        RecordsAfterClear(h, live, b);
      } else {
        RecordsWithout(h, live, b, k);
      }
    }
  }

  // ----- large blocks

  /** Where the free walk from pool k stops: after the first clear flag, or at the end of the list. */
  function StopAt(pools: seq<Pool>, k: nat): (e: nat)
    ensures k <= |pools| ==> k <= e <= |pools|
    decreases |pools| - k
  {
    if k >= |pools| then k else if !pools[k].large then k + 1 else StopAt(pools, k + 1)
  }

  /** The walk releases exactly the pools it passes. */
  lemma {:induction false} WalkReleases(pools: seq<Pool>, k: nat)
    requires k <= |pools|
    ensures forall i {:trigger NeedFree(pools, k)[i]} :: 0 <= i < |pools| ==>
      NeedFree(pools, k)[i] == if k <= i < StopAt(pools, k) then Released(pools[i]) else pools[i]
    decreases |pools| - k
  {
    if k < |pools| && pools[k].large {
      var next := pools[k := Released(pools[k])];
      WalkReleases(next, k + 1);
      StopFrame(pools, next, k + 1);
    }
  }

  lemma {:induction false} StopFrame(pools: seq<Pool>, next: seq<Pool>, k: nat)
    requires |pools| == |next| && forall i {:trigger next[i]} :: k <= i < |pools| ==> next[i] == pools[i]
    ensures StopAt(next, k) == StopAt(pools, k)
    decreases |pools| - k
  {
    if k < |pools| && pools[k].large {
      StopFrame(pools, next, k + 1);
    }
  }

  /**
   The block's flags lead the walk no further than its end, or the pool after it does not mind: the
   condition under which a large block may be freed.
   */
  predicate Terminated(h: Heap, b: Block)
    requires b.Large? && b.num > 0 && b.pool + b.num <= |h.pools|
  {
    var end := b.pool + b.num;
    !h.pools[end - 1].large || end == |h.pools| || (h.pools[end].nfree == NUM_PAGES && !h.pools[end].large)
  }

  /** The pools after the block's own pools have been released, and no others. */
  function BlockReleased(pools: seq<Pool>, b: Block): (r: seq<Pool>)
    requires b.Large?
    ensures |r| == |pools|
  {
    seq(|pools|, i requires 0 <= i < |pools| =>
      if b.pool <= i < b.pool + b.num then Released(pools[i]) else pools[i])
  }

  lemma {:induction false} StopInBlock(pools: seq<Pool>, k: nat, end: nat)
    requires k < end <= |pools|
    requires forall i {:trigger pools[i]} :: k <= i < end ==> LargeMember(pools[i], i, end)
    ensures StopAt(pools, k) == if !pools[end - 1].large then end else StopAt(pools, end)
    decreases end - k
  {
    if k + 1 < end {
      assert LargeMember(pools[k], k, end);
      StopInBlock(pools, k + 1, end);
    }
  }

  /** `pim_free` of a large block releases exactly its own pools if and only if the chain is terminated. */
  lemma FreeLargeExact(h: Heap, live: set<Block>, b: Block)
    requires Inv(h, live) && b in live && b.Large?
    ensures b.num > 0 && b.pool + b.num <= |h.pools|
    ensures Free(h, Addr(h, b)).Some?
    ensures Terminated(h, b) <==> Free(h, Addr(h, b)).value == h.(pools := BlockReleased(h.pools, b))
  {
    hide Shape, AllRecord, AllApart, PoolShape, BlockReleased, Terminated;
    LargeRecord(h, live, b);
    FindsBlock(h, live, b);
    var pools, end := h.pools, b.pool + b.num;
    assert Free(h, Addr(h, b)) == Some(h.(pools := NeedFree(pools, b.pool)));
    StopInBlock(pools, b.pool, end);
    WalkReleases(pools, b.pool);
    WalkVersusBlock(h, b, NeedFree(pools, b.pool));
  }

  lemma LargeRecord(h: Heap, live: set<Block>, b: Block)
    requires Inv(h, live) && b in live && b.Large?
    ensures b.num > 1 && b.pool + b.num <= |h.pools| && h.pools[b.pool].large
    ensures forall i {:trigger h.pools[i]} :: b.pool <= i < b.pool + b.num ==>
      LargeMember(h.pools[i], i, b.pool + b.num)
  {
    assert Fits(h.pools, b);
    assert LargeMember(h.pools[b.pool], b.pool, b.pool + b.num);
  }

  lemma WalkVersusBlock(h: Heap, b: Block, after: seq<Pool>)
    requires b.Large? && b.num > 0 && b.pool + b.num <= |h.pools| && |after| == |h.pools|
    requires forall i {:trigger after[i]} :: 0 <= i < |h.pools| ==>
      after[i] == if b.pool <= i < StopAt(h.pools, b.pool) then Released(h.pools[i]) else h.pools[i]
    requires StopAt(h.pools, b.pool) ==
      if !h.pools[b.pool + b.num - 1].large then b.pool + b.num else StopAt(h.pools, b.pool + b.num)
    ensures Terminated(h, b) <==> after == BlockReleased(h.pools, b)
  {
    var end := b.pool + b.num;
    if Terminated(h, b) {
      forall i | 0 <= i < |after| ensures after[i] == BlockReleased(h.pools, b)[i] {
      }
      assert after == BlockReleased(h.pools, b);
    } else {
      assert after[end] == Released(h.pools[end]);
      assert BlockReleased(h.pools, b)[end] == h.pools[end];
      ReleasedChanges(h.pools[end]);
    }
  }

  lemma ReleasedChanges(p: Pool)
    ensures Released(p) == p <==> p.nfree == NUM_PAGES && !p.large
  {
  }

  lemma InLargeRemove(live: set<Block>, b: Block, k: nat)
    requires AllApart(live) && b in live && b.Large?
    ensures InLarge(live - {b}, k) <==> InLarge(live, k) && !(b.pool <= k < b.pool + b.num)
    ensures forall i: nat :: InSmall(live - {b}, k, i) <==> InSmall(live, k, i)
  {
    if InLarge(live, k) && !(b.pool <= k < b.pool + b.num) {
      var c :| c in live && c.Large? && c.pool <= k < c.pool + c.num;
      assert c in live - {b};
    }
    if InLarge(live - {b}, k) {
      var c :| c in live - {b} && c.Large? && c.pool <= k < c.pool + c.num;
      assert Apart(b, c);
    }
    forall i: nat ensures InSmall(live - {b}, k, i) <==> InSmall(live, k, i) {
      if InSmall(live, k, i) {
        var c :| c in live && c.Small? && c.pool == k && c.page <= i < c.page + c.n;
        assert c in live - {b};
      }
    }
  }

  lemma NoSmallIn(live: set<Block>, b: Block, k: nat, i: nat)
    requires AllApart(live) && b in live && b.Large? && b.pool <= k < b.pool + b.num
    ensures !InSmall(live, k, i)
  {
    forall c | c in live && c.Small? ensures c.pool != k {
      assert Apart(b, c);
    }
  }

  lemma ReleasedRecords(h: Heap, live: set<Block>, b: Block, k: nat)
    requires Inv(h, live) && b in live && b.Large? && k < |h.pools| && b.pool <= k < b.pool + b.num
    ensures Records(Released(h.pools[k]), k, live - {b})
  {
    hide InSmall, InLarge, Shape, AllFit, AllApart;
    assert Records(h.pools[k], k, live);
    InLargeRemove(live, b, k);
    forall i: nat | i < NUM_PAGES ensures h.pools[k].bits[i] != '1' {
      NoSmallIn(live, b, k, i);
    }
    AllZero(h, k);
    CountSame(h.pools[k].bits, '0');
  }

  lemma AllZero(h: Heap, k: nat)
    requires Shape(h) && k < |h.pools| && |h.pools[k].bits| == NUM_PAGES
    requires forall i: nat :: i < NUM_PAGES ==> h.pools[k].bits[i] != '1'
    ensures AllAt(h.pools[k].bits, 0, NUM_PAGES, '0')
  {
    assert PoolShape(h.pools[k]);
  }

  lemma KeptRecords(h: Heap, live: set<Block>, b: Block, k: nat)
    requires Inv(h, live) && b in live && b.Large? && k < |h.pools| && !(b.pool <= k < b.pool + b.num)
    ensures Records(h.pools[k], k, live - {b})
  {
    hide InSmall, InLarge, Shape, AllFit, AllApart;
    assert Records(h.pools[k], k, live);
    InLargeRemove(live, b, k);
  }

  lemma KeptFits(h: Heap, live: set<Block>, b: Block, c: Block)
    requires Inv(h, live) && b in live && b.Large? && c in live - {b}
    ensures Fits(BlockReleased(h.pools, b), c)
  {
    assert Fits(h.pools, c) && Apart(b, c);
    if c.Large? {
      forall k | c.pool <= k < c.pool + c.num ensures LargeMember(BlockReleased(h.pools, b)[k], k, c.pool + c.num) {
        assert LargeMember(h.pools[k], k, c.pool + c.num);
      }
    }
  }

  lemma ShapeReleased(h: Heap, b: Block)
    requires Shape(h) && b.Large?
    ensures Shape(h.(pools := BlockReleased(h.pools, b)))
  {
    hide PoolShape;
    forall k | 0 <= k < |h.pools|
      ensures PoolShape(BlockReleased(h.pools, b)[k]) && BlockReleased(h.pools, b)[k].start == h.pools[k].start
    {
      SameShape(h.pools[k]);
    }
  }

  lemma SameShape(p: Pool)
    requires PoolShape(p)
    ensures PoolShape(Released(p)) && Released(p).start == p.start
  {
  }

  lemma BlockReleasedKeepsInv(h: Heap, live: set<Block>, b: Block)
    requires Inv(h, live) && b in live && b.Large?
    ensures Inv(h.(pools := BlockReleased(h.pools, b)), live - {b})
  {
    hide Shape, Fits, Records, Apart;
    ShapeReleased(h, b);
    forall c | c in live - {b} ensures Fits(BlockReleased(h.pools, b), c) {
      KeptFits(h, live, b, c);
    }
    forall k: nat | k < |h.pools| ensures Records(BlockReleased(h.pools, b)[k], k, live - {b}) {
      if b.pool <= k < b.pool + b.num {
        ReleasedRecords(h, live, b, k);
      } else {
        KeptRecords(h, live, b, k);
      }
    }
  }

  /** A walk past the block makes the next pool claim 512 free pages; that is sound only if it has them. */
  lemma WalkedPast(h: Heap, live: set<Block>, b: Block, after: seq<Pool>)
    requires Inv(h, live) && b in live && b.Large? && b.pool + b.num < |h.pools|
    requires |after| == |h.pools| && after[b.pool + b.num] == Released(h.pools[b.pool + b.num])
    requires Inv(h.(pools := after), live - {b})
    ensures h.pools[b.pool + b.num].nfree == NUM_PAGES && !h.pools[b.pool + b.num].large
  {
    hide Shape, AllApart, InSmall, InLarge, CountFree;
    var end := b.pool + b.num;
    assert Records(h.pools[end], end, live);
    WhollyFree(h.(pools := after), live - {b}, end);
    InLargeRemove(live, b, end);
    CountFull(h.pools[end].bits);
  }

  /** Freeing a large block keeps the allocator sound if and only if its chain is terminated. */
  lemma FreeLargeKeepsInv(h: Heap, live: set<Block>, b: Block)
    requires Inv(h, live) && b in live && b.Large?
    ensures b.num > 0 && b.pool + b.num <= |h.pools| && Free(h, Addr(h, b)).Some?
    ensures Terminated(h, b) <==> Inv(Free(h, Addr(h, b)).value, live - {b})
  {
    hide AllRecord, AllApart, AllFit, PoolShape, BlockReleased, NeedFree, StopAt;
    FreeLargeExact(h, live, b);
    LargeRecord(h, live, b);
    if Terminated(h, b) {
      BlockReleasedKeepsInv(h, live, b);
    } else {
      UnterminatedWalk(h, live, b);
      if Inv(Free(h, Addr(h, b)).value, live - {b}) {
        WalkedPast(h, live, b, Free(h, Addr(h, b)).value.pools);
      }
    }
  }

  lemma UnterminatedWalk(h: Heap, live: set<Block>, b: Block)
    requires Inv(h, live) && b in live && b.Large? && b.num > 0 && b.pool + b.num <= |h.pools| && !Terminated(h, b)
    ensures Free(h, Addr(h, b)).Some? && |Free(h, Addr(h, b)).value.pools| == |h.pools|
    ensures Free(h, Addr(h, b)).value == h.(pools := Free(h, Addr(h, b)).value.pools)
    ensures Free(h, Addr(h, b)).value.pools[b.pool + b.num] == Released(h.pools[b.pool + b.num])
  {
    hide Shape, AllRecord, AllApart, PoolShape;
    LargeRecord(h, live, b);
    FindsBlock(h, live, b);
    StopInBlock(h.pools, b.pool, b.pool + b.num);
    WalkReleases(h.pools, b.pool);
  }

  // ----- nothing in use

  /** When no block is in use, every pool is completely free. */
  lemma AllFreed(h: Heap, k: nat)
    requires Inv(h, {}) && k < |h.pools|
    ensures h.pools[k].nfree == NUM_PAGES && !h.pools[k].large && AllAt(h.pools[k].bits, 0, NUM_PAGES, '0')
  {
    hide Shape, AllFit, AllApart;
    assert Records(h.pools[k], k, {});
    AllZero(h, k);
    CountSame(h.pools[k].bits, '0');
  }
}
