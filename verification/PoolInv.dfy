/**
 The invariant that ties the allocator state to the blocks in use, and that `pim_malloc` keeps it.
 */
module PoolInv {
  import opened PoolBits
  import opened PoolHeap

  ghost predicate InSmall(live: set<Block>, k: nat, i: nat) {
    exists b :: b in live && b.Small? && b.pool == k && b.page <= i < b.page + b.n
  }

  ghost predicate InLarge(live: set<Block>, k: nat) {
    exists b :: b in live && b.Large? && b.pool <= k < b.pool + b.num
  }

  /** No page belongs to both blocks. */
  predicate Apart(b: Block, c: Block) {
    match b
    case Small(pool, page, n, _) => (
      match c
      case Small(pool', page', n', _) => pool != pool' || page + n <= page' || page' + n' <= page
      case Large(pool', num', _) => !(pool' <= pool < pool' + num'))
    case Large(pool, num, _) => (
      match c
      case Small(pool', page', n', _) => !(pool <= pool' < pool + num)
      case Large(pool', num', _) => pool + num <= pool' || pool' + num' <= pool)
  }

  /** Pool k as part of a large block that ends before pool end: nothing free, flagged unless it is the last. */
  predicate LargeMember(p: Pool, k: nat, end: nat) {
    p.nfree == 0 && (k + 1 < end ==> p.large)
  }

  /** The block lies in the pools, holds what was asked for, and is recorded there. */
  ghost predicate Fits(pools: seq<Pool>, b: Block) {
    match b
    case Small(pool, page, n, size) =>
      && pool < |pools| && |pools[pool].sizes| == NUM_PAGES && n > 0 && page + n <= NUM_PAGES
      && size <= n * PAGE_SIZE && pools[pool].sizes[page] == n
    case Large(pool, num, size) =>
      && num >= 2 && pool + num <= |pools| && size <= num * HUGE_PAGE_SIZE
      && forall k {:trigger pools[k]} :: pool <= k < pool + num ==> LargeMember(pools[k], k, pool + num)
  }

  ghost predicate AllFit(pools: seq<Pool>, live: set<Block>) {
    forall b :: b in live ==> Fits(pools, b)
  }

  ghost predicate AllApart(live: set<Block>) {
    forall b, c :: b in live && c in live && b != c ==> Apart(b, c)
  }

  /** The bit vector shows the small blocks; outside large blocks the count is exact and the flag clear. */
  ghost predicate Records(p: Pool, k: nat, live: set<Block>) {
    && |p.bits| == NUM_PAGES
    && (forall i: nat {:trigger p.bits[i]} :: i < NUM_PAGES ==> (p.bits[i] == '1' <==> InSmall(live, k, i)))
    && (!InLarge(live, k) ==> !p.large && p.nfree == CountFree(p.bits))
  }

  ghost predicate AllRecord(pools: seq<Pool>, live: set<Block>) {
    forall k: nat {:trigger pools[k]} :: k < |pools| ==> Records(pools[k], k, live)
  }

  ghost predicate Inv(h: Heap, live: set<Block>) {
    Shape(h) && AllFit(h.pools, live) && AllApart(live) && AllRecord(h.pools, live)
  }

  lemma InvEmpty(base: int, limit: nat)
    ensures Inv(Heap(base, limit, [], -1, 0), {})
  {
  }

  // ----- placing a small block

  lemma MemberFull(pools: seq<Pool>, b: Block, k: nat)
    requires Fits(pools, b) && b.Large? && k < |pools|
    ensures b.pool <= k < b.pool + b.num ==> pools[k].nfree == 0
  {
    if b.pool <= k < b.pool + b.num {
      assert LargeMember(pools[k], k, b.pool + b.num);
    }
  }

  /** A pool with a free page is in no large block. */
  lemma NotInLarge(h: Heap, live: set<Block>, k: nat)
    requires Inv(h, live) && k < |h.pools| && h.pools[k].nfree > 0
    ensures !InLarge(live, k)
  {
    hide Shape, AllRecord, AllApart, Apart, Fits;
    forall b | b in live && b.Large? ensures !(b.pool <= k < b.pool + b.num) {
      MemberFull(h.pools, b, k);
    }
  }

  lemma UsedPage(h: Heap, live: set<Block>, c: Block, i: nat)
    requires Inv(h, live) && c in live && c.Small?
    ensures c.pool < |h.pools| && c.page + c.n <= NUM_PAGES && |h.pools[c.pool].bits| == NUM_PAGES
    ensures c.page <= i < c.page + c.n ==> h.pools[c.pool].bits[i] == '1'
  {
    hide Shape, AllApart;
    assert Fits(h.pools, c) && Records(h.pools[c.pool], c.pool, live);
    if c.page <= i < c.page + c.n {
      assert InSmall(live, c.pool, i);
    }
  }

  /** A run of free pages belongs to no block in use. */
  lemma FreeRunApart(h: Heap, live: set<Block>, k: nat, idx: nat, n: nat, size: nat, c: Block)
    requires Inv(h, live) && k < |h.pools| && !InLarge(live, k)
    requires n > 0 && AllAt(h.pools[k].bits, idx, n, '0') && c in live
    ensures Apart(Small(k, idx, n, size), c) && Apart(c, Small(k, idx, n, size))
  {
    hide Inv;
    if c.Small? && c.pool == k {
      UsedPage(h, live, c, if idx >= c.page then idx else c.page);
      UsedPage(h, live, c, c.page);
      SmallNonEmpty(h, live, c);
    }
  }

  lemma SmallNonEmpty(h: Heap, live: set<Block>, c: Block)
    requires Inv(h, live) && c in live && c.Small?
    ensures c.n > 0
  {
    assert Fits(h.pools, c);
  }

  /** What placing does to pool k. */
  function Placed(p: Pool, idx: nat, n: nat): Pool
    requires idx + n <= |p.bits| && idx < |p.sizes|
  {
    Take(p, idx, n).(sizes := p.sizes[idx := n])
  }

  lemma FitsOthers(pools: seq<Pool>, k: nat, p: Pool, c: Block, b: Block)
    requires k < |pools| && Fits(pools, c) && Apart(c, b) && b.Small? && b.pool == k && b.n > 0
    requires |p.sizes| == |pools[k].sizes| == NUM_PAGES && b.page < NUM_PAGES
    requires forall i {:trigger p.sizes[i]} :: 0 <= i < NUM_PAGES && i != b.page ==> p.sizes[i] == pools[k].sizes[i]
    ensures Fits(pools[k := p], c)
  {
  }

  lemma InSmallAdd(live: set<Block>, b: Block, k: nat, i: nat)
    requires b.Small?
    ensures InSmall(live + {b}, k, i) <==> InSmall(live, k, i) || (b.pool == k && b.page <= i < b.page + b.n)
    ensures InLarge(live + {b}, k) <==> InLarge(live, k)
  {
    if InSmall(live, k, i) {
      var c :| c in live && c.Small? && c.pool == k && c.page <= i < c.page + c.n;
      assert c in live + {b};
    }
    if b.pool == k && b.page <= i < b.page + b.n {
      assert b in live + {b};
    }
    if InLarge(live, k) {
      var c :| c in live && c.Large? && c.pool <= k < c.pool + c.num;
      assert c in live + {b};
    }
  }

  lemma RecordsOther(p: Pool, live: set<Block>, b: Block, k: nat)
    requires b.Small? && b.pool != k && Records(p, k, live)
    ensures Records(p, k, live + {b})
  {
    hide InSmall, InLarge;
    forall i: nat {
      InSmallAdd(live, b, k, i);
    }
  }

  lemma RecordsPlaced(p: Pool, live: set<Block>, b: Block)
    requires b.Small? && Records(p, b.pool, live) && !InLarge(live, b.pool)
    requires b.n > 0 && AllAt(p.bits, b.page, b.n, '0') && |p.sizes| == NUM_PAGES
    ensures Records(Placed(p, b.page, b.n), b.pool, live + {b})
  {
    hide InSmall, InLarge, CountFree, Paint;
    forall i: nat {
      InSmallAdd(live, b, b.pool, i);
    }
    CountPaint(p.bits, b.page, b.n, '0', '1');
  }

  lemma ShapePlaced(h: Heap, k: nat, idx: nat, n: nat)
    requires Shape(h) && k < |h.pools| && 0 < n && idx + n <= NUM_PAGES
    ensures Shape(h.(pools := h.pools[k := Placed(h.pools[k], idx, n)], curr := k))
  {
  }

  /** Marking a run of free pages and noting its size keeps the invariant, with the new block in use. */
  lemma PlaceKeepsInv(h: Heap, live: set<Block>, b: Block)
    requires Inv(h, live) && b.Small? && b.pool < |h.pools| && !InLarge(live, b.pool)
    requires b.n > 0 && AllAt(h.pools[b.pool].bits, b.page, b.n, '0') && b.size <= b.n * PAGE_SIZE
    requires |h.pools[b.pool].sizes| == NUM_PAGES
    ensures Inv(h.(pools := h.pools[b.pool := Placed(h.pools[b.pool], b.page, b.n)], curr := b.pool), live + {b})
  {
    hide InSmall, InLarge, Fits, Apart, Records, Shape, Take, Paint;
    var k, p := b.pool, h.pools[b.pool];
    assert Records(p, k, live);
    BitsLength(p, k, live);
    ShapePlaced(h, k, b.page, b.n);
    var pools := h.pools[k := Placed(p, b.page, b.n)];
    forall c | c in live + {b} ensures Fits(pools, c) && (c != b ==> Apart(b, c) && Apart(c, b)) {
      if c in live {
        FreeRunApart(h, live, k, b.page, b.n, b.size, c);
        assert b == Small(k, b.page, b.n, b.size);
        FitsOthers(h.pools, k, Placed(p, b.page, b.n), c, b);
      } else {
        FitsNew(h.pools, p, b);
      }
    }
    forall i: nat | i < |pools| ensures Records(pools[i], i, live + {b}) {
      assert Records(h.pools[i], i, live);
      if i == k {
        RecordsPlaced(p, live, b);
      } else {
        RecordsOther(h.pools[i], live, b, i);
      }
    }
  }

  lemma BitsLength(p: Pool, k: nat, live: set<Block>)
    requires Records(p, k, live)
    ensures |p.bits| == NUM_PAGES
  {
  }

  lemma FitsNew(pools: seq<Pool>, p: Pool, b: Block)
    requires b.Small? && b.pool < |pools| && p == pools[b.pool] && |p.bits| == |p.sizes| == NUM_PAGES
    requires b.n > 0 && b.page + b.n <= NUM_PAGES && b.size <= b.n * PAGE_SIZE
    ensures Fits(pools[b.pool := Placed(p, b.page, b.n)], b)
  {
  }

  // ----- more pools

  lemma BeyondEnd(h: Heap, live: set<Block>, k: nat)
    requires Inv(h, live) && k >= |h.pools|
    ensures !InLarge(live, k) && forall i: nat :: !InSmall(live, k, i)
  {
    assert forall b :: b in live ==> Fits(h.pools, b);
  }

  lemma FitsMore(pools: seq<Pool>, added: seq<Pool>, b: Block)
    requires Fits(pools, b)
    ensures Fits(pools + added, b)
  {
    if b.Large? {
      forall k | b.pool <= k < b.pool + b.num ensures LargeMember((pools + added)[k], k, b.pool + b.num) {
        assert LargeMember(pools[k], k, b.pool + b.num);
      }
    }
  }

  lemma FreshRecords(h: Heap, live: set<Block>, start: int)
    requires Inv(h, live)
    ensures Records(FreshPool(start), |h.pools|, live)
  {
    hide Inv, InSmall, InLarge;
    BeyondEnd(h, live, |h.pools|);
    CountSame(Repeat('0', NUM_PAGES), '0');
  }

  lemma ShapeGrown(h: Heap, added: seq<Pool>, curr: nat)
    requires Shape(h) && h.total + |added| * HUGE_PAGE_SIZE <= h.limit && curr < |h.pools| + |added|
    requires forall i {:trigger added[i]} :: 0 <= i < |added| ==>
      PoolShape(added[i]) && added[i].start == h.base + h.total + i * HUGE_PAGE_SIZE
    ensures Grow(h, added).Some? && Shape(Grow(h, added).value.(curr := curr))
  {
    hide PoolShape;
  }

  /** A fresh pool at the end of the list keeps the invariant. */
  lemma FreshKeepsInv(h: Heap, live: set<Block>, curr: nat)
    requires Inv(h, live) && h.total + HUGE_PAGE_SIZE <= h.limit && curr <= |h.pools|
    ensures Grow(h, [FreshPool(h.base + h.total)]).Some?
    ensures Inv(Grow(h, [FreshPool(h.base + h.total)]).value.(curr := curr), live)
  {
    hide Fits, Records, Shape, PoolShape, FreshPool, Apart;
    var added := [FreshPool(h.base + h.total)];
    FreshStart(h.base + h.total);
    ShapeGrown(h, added, curr);
    forall b | b in live ensures Fits(h.pools + added, b) {
      FitsMore(h.pools, added, b);
    }
    FreshRecords(h, live, h.base + h.total);
  }

  lemma FreshStart(start: int)
    ensures PoolShape(FreshPool(start)) && FreshPool(start).start == start
  {
  }

  lemma InLargeAdd(live: set<Block>, b: Block, k: nat)
    requires b.Large?
    ensures InLarge(live + {b}, k) <==> InLarge(live, k) || b.pool <= k < b.pool + b.num
    ensures forall i: nat :: InSmall(live + {b}, k, i) <==> InSmall(live, k, i)
  {
    if InLarge(live, k) {
      var c :| c in live && c.Large? && c.pool <= k < c.pool + c.num;
      assert c in live + {b};
    }
    if b.pool <= k < b.pool + b.num {
      assert b in live + {b};
    }
    forall i: nat ensures InSmall(live + {b}, k, i) <==> InSmall(live, k, i) {
      if InSmall(live, k, i) {
        var c :| c in live && c.Small? && c.pool == k && c.page <= i < c.page + c.n;
        assert c in live + {b};
      }
    }
  }

  lemma RecordsWithLarge(p: Pool, live: set<Block>, b: Block, k: nat)
    requires b.Large? && Records(p, k, live)
    ensures Records(p, k, live + {b})
  {
    hide InSmall, InLarge;
    InLargeAdd(live, b, k);
  }

  /** A pool of free pages taken over by large block b. */
  lemma RecordsTaken(p: Pool, live: set<Block>, b: Block, k: nat)
    requires b.Large? && b.pool <= k < b.pool + b.num
    requires AllAt(p.bits, 0, NUM_PAGES, '0') && |p.bits| == NUM_PAGES && forall i: nat :: !InSmall(live, k, i)
    ensures Records(p, k, live + {b})
  {
    hide InSmall, InLarge;
    InLargeAdd(live, b, k);
  }

  lemma LargePoolAt(h: Heap, num: nat, i: nat)
    requires i < num
    ensures var p := LargePools(h, num)[i];
      && PoolShape(p) && p.start == h.base + h.total + i * HUGE_PAGE_SIZE && p.nfree == 0 && p.large == (i + 1 < num)
      && AllAt(p.bits, 0, NUM_PAGES, '0')
  {
  }

  lemma LargeBlockFits(h: Heap, num: nat, size: nat)
    requires num >= 2 && size <= num * HUGE_PAGE_SIZE
    ensures Fits(h.pools + LargePools(h, num), Large(|h.pools|, num, size))
  {
    hide LargePools;
    var pools, n := h.pools + LargePools(h, num), |h.pools|;
    forall k | n <= k < n + num ensures LargeMember(pools[k], k, n + num) {
      LargePoolAt(h, num, k - n);
    }
  }

  lemma BeyondApart(h: Heap, live: set<Block>, b: Block, c: Block)
    requires Inv(h, live) && c in live && b.Large? && b.pool >= |h.pools|
    ensures Apart(b, c) && Apart(c, b)
  {
    assert Fits(h.pools, c);
  }

  /** The fresh path for a large block keeps the invariant. */
  lemma LargeFreshKeepsInv(h: Heap, live: set<Block>, num: nat, size: nat)
    requires Inv(h, live) && num >= 2 && size <= num * HUGE_PAGE_SIZE && h.total + num * HUGE_PAGE_SIZE <= h.limit
    ensures Grow(h, LargePools(h, num)).Some?
    ensures Inv(Grow(h, LargePools(h, num)).value.(curr := |h.pools|), live + {Large(|h.pools|, num, size)})
  {
    hide Fits, Records, Shape, PoolShape, LargePools, Apart, InSmall, InLarge, AllAt;
    var added, b := LargePools(h, num), Large(|h.pools|, num, size);
    forall i | 0 <= i < num ensures PoolShape(added[i]) && added[i].start == h.base + h.total + i * HUGE_PAGE_SIZE {
      LargePoolAt(h, num, i);
    }
    ShapeGrown(h, added, |h.pools|);
    LargeBlockFits(h, num, size);
    forall c | c in live ensures Fits(h.pools + added, c) && Apart(b, c) && Apart(c, b) {
      FitsMore(h.pools, added, c);
      BeyondApart(h, live, b, c);
    }
    forall k: nat | k < |h.pools| + num ensures Records((h.pools + added)[k], k, live + {b}) {
      if k < |h.pools| {
        RecordsWithLarge(h.pools[k], live, b, k);
      } else {
        LargePoolAt(h, num, k - |h.pools|);
        BeyondEnd(h, live, k);
        BitsOfShape(added[k - |h.pools|]);
        RecordsTaken(added[k - |h.pools|], live, b, k);
      }
    }
  }

  lemma BitsOfShape(p: Pool)
    requires PoolShape(p)
    ensures |p.bits| == NUM_PAGES && |p.sizes| == NUM_PAGES
  {
  }

  // ----- reuse

  /** A pool whose count is 512 belongs to no block, and every bit of it is '0'. */
  lemma WhollyFree(h: Heap, live: set<Block>, k: nat)
    requires Inv(h, live) && k < |h.pools| && h.pools[k].nfree == NUM_PAGES
    ensures !InLarge(live, k) && AllAt(h.pools[k].bits, 0, NUM_PAGES, '0') && |h.pools[k].bits| == NUM_PAGES
    ensures !h.pools[k].large && forall i: nat :: !InSmall(live, k, i)
  {
    hide AllFit, AllApart, Shape, InLarge;
    NotInLarge(h, live, k);
    assert Records(h.pools[k], k, live);
    CountFull(h.pools[k].bits);
    forall i: nat ensures !InSmall(live, k, i) {
      SmallInside(h, live, k, i);
      assert i < NUM_PAGES ==> h.pools[k].bits[i] == '0';
    }
  }

  lemma SmallInside(h: Heap, live: set<Block>, k: nat, i: nat)
    requires Inv(h, live)
    ensures InSmall(live, k, i) ==> i < NUM_PAGES
  {
    assert forall b :: b in live ==> Fits(h.pools, b);
  }

  /** The two last pools after they have been turned into a large block. */
  function Retaken(p: Pool): Pool {
    p.(large := true, nfree := 0)
  }

  lemma ReuseApart(h: Heap, live: set<Block>, k: nat, size: nat, c: Block)
    requires Inv(h, live) && k + 2 <= |h.pools| && c in live
    requires !InLarge(live, k) && !InLarge(live, k + 1)
    requires forall i: nat :: !InSmall(live, k, i) && !InSmall(live, k + 1, i)
    ensures Apart(Large(k, 2, size), c) && Apart(c, Large(k, 2, size))
  {
    assert Fits(h.pools, c);
    if c.Small? {
      assert !InSmall(live, k, c.page) && !InSmall(live, k + 1, c.page);
    }
  }

  lemma FitsReused(pools: seq<Pool>, k: nat, size: nat, b: Block, c: Block)
    requires k + 2 <= |pools| && Fits(pools, c) && Apart(b, c) && b == Large(k, 2, size)
    ensures Fits(pools[k := Retaken(pools[k])][k + 1 := Retaken(pools[k + 1])], c)
  {
    var after := pools[k := Retaken(pools[k])][k + 1 := Retaken(pools[k + 1])];
    if c.Large? {
      forall x | c.pool <= x < c.pool + c.num ensures LargeMember(after[x], x, c.pool + c.num) {
        assert LargeMember(pools[x], x, c.pool + c.num);
        assert after[x] == pools[x];
      }
    }
  }

  lemma ShapeReused(h: Heap, k: nat)
    requires Shape(h) && k + 2 == |h.pools|
    ensures Shape(h.(pools := h.pools[k := Retaken(h.pools[k])][k + 1 := Retaken(h.pools[k + 1])], curr := k))
  {
  }

  /** The reuse branch keeps the invariant. */
  lemma ReuseKeepsInv(h: Heap, live: set<Block>, size: nat)
    requires Inv(h, live) && Reusable(h, 2) && size <= 2 * HUGE_PAGE_SIZE
    ensures var k := |h.pools| - 2;
      Inv(h.(pools := h.pools[k := Retaken(h.pools[k])][k + 1 := Retaken(h.pools[k + 1])], curr := k),
        live + {Large(k, 2, size)})
  {
    hide Fits, Records, Shape, Apart, InSmall, InLarge, AllAt;
    var k := |h.pools| - 2;
    var b := Large(k, 2, size);
    var pools := h.pools[k := Retaken(h.pools[k])][k + 1 := Retaken(h.pools[k + 1])];
    WhollyFree(h, live, k);
    WhollyFree(h, live, k + 1);
    ShapeReused(h, k);
    ReusedFits(h.pools, k, size);
    forall c | c in live ensures Fits(pools, c) && Apart(b, c) && Apart(c, b) {
      ReuseApart(h, live, k, size, c);
      FitsReused(h.pools, k, size, b, c);
    }
    forall x: nat | x < |pools| ensures Records(pools[x], x, live + {b}) {
      if x < k {
        RecordsWithLarge(h.pools[x], live, b, x);
      } else {
        RecordsTaken(pools[x], live, b, x);
      }
    }
  }

  lemma ReusedFits(pools: seq<Pool>, k: nat, size: nat)
    requires k + 2 == |pools| && size <= 2 * HUGE_PAGE_SIZE
    ensures Fits(pools[k := Retaken(pools[k])][k + 1 := Retaken(pools[k + 1])], Large(k, 2, size))
  {
  }
}
