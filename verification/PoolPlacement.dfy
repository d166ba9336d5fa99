/**
 Where `pim_malloc` puts a block, and where the cursors stand after either call: statements about whole calls,
 in terms of the state before and after, that say which of several possible blocks is chosen.
 */
module PoolPlacement {
  import opened PoolBits
  import opened PoolHeap
  import opened PoolInv
  import opened PoolMalloc
  import opened PoolFree

  // ----- small requests

  /**
   A request of up to 2 MB: the search starts at the first pool when the current one has too few free pages, and
   else at the current one. Every pool from there up to the answer's refuses, a new pool comes only after all
   of them, and memory runs out only if the window is used up, too.
   */
  lemma MallocPlacement(h: Heap, size: nat)
    requires Shape(h) && h.pools != [] && size <= HUGE_PAGE_SIZE
    ensures var a, n, back := Malloc(h, size), PagesFor(size), PagesFor(size) > h.pools[h.curr].nfree;
      if a.OutOfMemory? then
        && (forall i {:trigger h.pools[i]} :: 0 <= i < |h.pools| && (back || h.curr <= i) ==> !Accepts(h.pools[i], n))
        && h.total + HUGE_PAGE_SIZE > h.limit
      else
        && a.block.Small? && a.block.n == n && a.block.size == size && (back || h.curr <= a.block.pool)
        && (forall i {:trigger h.pools[i]} :: 0 <= i < |h.pools| && i < a.block.pool && (back || h.curr <= i) ==>
              !Accepts(h.pools[i], n))
        && (if a.block.pool < |h.pools| then
              && Accepts(h.pools[a.block.pool], n) && |a.heap.pools| == |h.pools|
              && a.block.page == FindPages(h.pools[a.block.pool].bits, h.pools[a.block.pool].cur, n)
            else a.block.pool == |h.pools| && a.block.page == 0 && |a.heap.pools| == |h.pools| + 1)
  {
    hide Accepts, FindPages, PagesFor, SmallFrom, PoolShape;
    SmallPlacement(h, if PagesFor(size) > h.pools[h.curr].nfree then 0 else h.curr, PagesFor(size), size);
  }

  /** The first request of all gets the first pages of the first pool. */
  lemma FirstPlacement(h: Heap, size: nat)
    requires Shape(h) && h.pools == [] && size <= HUGE_PAGE_SIZE
    ensures var a := Malloc(h, size);
      if h.limit < HUGE_PAGE_SIZE then a.OutOfMemory?
      else a.Got? && a.block == Small(0, 0, PagesFor(size), size) && |a.heap.pools| == 1
  {
    hide Accepts, FindPages, PagesFor, SmallFrom, PoolShape, FreshPool;
    if h.limit >= HUGE_PAGE_SIZE {
      var p, n := FreshPool(h.base + h.total), PagesFor(size);
      FreshFirst(h.base + h.total, n);
      InitShape(h);
      SmallPlacement(Init(h).value, 0, n, size);
    }
  }

  lemma FreshFirst(start: int, n: nat)
    requires 0 < n <= NUM_PAGES
    ensures var p := FreshPool(start);
      PoolShape(p) && p.nfree == NUM_PAGES && Accepts(p, n) && FindPages(p.bits, p.cur, n) == 0
  {
    FreshFits(start, n);
  }

  /** What the call leaves in the pool it chose; that pool becomes the current one. */
  ghost predicate Marked(h: Heap, a: Answer) {
    a.Got? && a.block.Small? ==>
      var b := a.block;
      && b.pool < |a.heap.pools| && a.heap.curr == b.pool
      && var q := a.heap.pools[b.pool];
        && q.cur == b.page + b.n && |q.sizes| == NUM_PAGES && b.page < NUM_PAGES && q.sizes[b.page] == b.n
        && (b.pool < |h.pools| ==>
              && q.nfree == h.pools[b.pool].nfree - b.n && q.large == h.pools[b.pool].large
              && q.start == h.pools[b.pool].start)
  }

  lemma {:induction false} MarkedFrom(h: Heap, k: nat, n: nat, size: nat)
    requires Shape(h) && 0 < n <= NUM_PAGES && k <= |h.pools|
    ensures Marked(h, SmallFrom(h, k, n, size))
    decreases |h.pools| - k
  {
    hide Accepts, FindPages, FreshPool, Paint;
    if k >= |h.pools| {
      FreshFits(h.base + h.total, n);
      FreshFirst(h.base + h.total, n);
    } else if !Accepts(h.pools[k], n) {
      MarkedFrom(h, k + 1, n, size);
    }
  }

  /** After a small request the cursor stands behind the block, its size is noted, and its pool is the current one. */
  lemma MallocMarks(h: Heap, size: nat)
    requires Shape(h) && h.pools != [] && size <= HUGE_PAGE_SIZE
    ensures Marked(h, Malloc(h, size))
  {
    hide PagesFor, SmallFrom, PoolShape, Marked;
    MarkedFrom(h, if PagesFor(size) > h.pools[h.curr].nfree then 0 else h.curr, PagesFor(size), size);
  }

  // ----- large requests

  /**
   A request above 2 MB: it takes the last two pools when two are wanted and both are completely free, adding
   none; else as many new ones as it needs, if the window has room for them.
   */
  lemma LargePlacement(h: Heap, size: nat)
    requires Shape(h) && h.pools != [] && size > HUGE_PAGE_SIZE
    ensures var a, num := Malloc(h, size), PoolsFor(size);
      var again := num == 2 && |h.pools| >= 2
        && h.pools[|h.pools| - 2].nfree == NUM_PAGES && h.pools[|h.pools| - 1].nfree == NUM_PAGES;
      if !again && h.total + num * HUGE_PAGE_SIZE > h.limit then a.OutOfMemory?
      else
        && a.Got? && a.block == Large(if again then |h.pools| - 2 else |h.pools|, num, size)
        && |a.heap.pools| == (if again then |h.pools| else |h.pools| + num) && a.heap.curr == a.block.pool
        && a.heap.total == (if again then h.total else h.total + num * HUGE_PAGE_SIZE)
        && forall i {:trigger a.heap.pools[i]} :: a.block.pool <= i < |a.heap.pools| ==>
          && a.heap.pools[i].nfree == 0 && a.heap.pools[i].large == (again || i + 1 < |a.heap.pools|)
          && a.heap.pools[i].cur == (if again then h.pools[i].cur else 0)
  {
    hide PoolsFor, PoolShape;
  }

  /** If it is the first request of all, the pool made first stays unused. */
  lemma FirstLargePlacement(h: Heap, size: nat)
    requires Shape(h) && h.pools == [] && size > HUGE_PAGE_SIZE
    ensures var a, num := Malloc(h, size), PoolsFor(size);
      if (1 + num) * HUGE_PAGE_SIZE > h.limit then a.OutOfMemory?
      else a.Got? && a.block == Large(1, num, size) && |a.heap.pools| == 1 + num
  {
    hide PoolsFor, PoolShape, FreshPool;
  }

  // ----- freeing

  /** A small block: its pages are free, the cursor stands at its first page, and nothing else has changed. */
  lemma FreeSmallEffect(h: Heap, live: set<Block>, b: Block)
    requires Inv(h, live) && b in live && b.Small?
    ensures b.pool < |h.pools| && Free(h, Addr(h, b)).Some?
    ensures var h', p := Free(h, Addr(h, b)).value, h.pools[b.pool];
      && h' == h.(pools := h'.pools) && |h'.pools| == |h.pools| && |p.bits| == NUM_PAGES
      && (forall k {:trigger h'.pools[k]} :: 0 <= k < |h.pools| && k != b.pool ==> h'.pools[k] == h.pools[k])
      && var q := h'.pools[b.pool];
        && q == p.(cur := b.page, nfree := p.nfree + b.n, bits := q.bits) && |q.bits| == NUM_PAGES
        && forall i {:trigger q.bits[i]} :: 0 <= i < NUM_PAGES ==>
          q.bits[i] == if b.page <= i < b.page + b.n then '0' else p.bits[i]
  {
    hide Inv, PoolShape, Addr, Free;
    FreeSmallKeepsInv(h, live, b);
    SmallRecord(h, live, b);
    SmallShape(h, live, b);
  }

  /** A large block: bits, sizes, cursors and addresses stay, in every pool. */
  lemma FreeLargeEffect(h: Heap, live: set<Block>, b: Block)
    requires Inv(h, live) && b in live && b.Large?
    ensures Free(h, Addr(h, b)).Some?
    ensures var h' := Free(h, Addr(h, b)).value;
      && h' == h.(pools := h'.pools) && |h'.pools| == |h.pools|
      && forall k {:trigger h'.pools[k]} :: 0 <= k < |h.pools| ==>
        h'.pools[k] == h.pools[k].(nfree := h'.pools[k].nfree, large := h'.pools[k].large)
  {
    hide Inv, PoolShape, Addr;
    FindsBlock(h, live, b);
    LargeRecord(h, live, b);
    WalkReleases(h.pools, b.pool);
  }

  /** An address outside the pools ends the program. */
  lemma FreeOutside(h: Heap, addr: int)
    requires Shape(h) && !(h.base <= addr < h.base + h.total)
    ensures Free(h, addr).None?
  {
    forall i {:trigger h.pools[i]} | 0 <= i < |h.pools|
      ensures h.base <= h.pools[i].start && h.pools[i].start + HUGE_PAGE_SIZE <= h.base + h.total
    {
    }
  }

  // ----- laws over two calls

  lemma RunCounts(s: seq<char>, i: nat, n: nat)
    requires AllAt(s, i, n, '0')
    ensures n <= CountFree(s)
  {
    CountPaint(s, i, n, '0', '1');
  }

  lemma RunAtCursor(s: seq<char>, cur: nat, n: nat)
    requires |s| == NUM_PAGES && cur <= NUM_PAGES && n > 0 && AllAt(s, cur, n, '0')
    ensures FindPages(s, cur, n) == cur
  {
  }

  /** Next fit: n free pages at the current pool's cursor are what the next request for n pages gets. */
  lemma NextFit(h: Heap, live: set<Block>, size: nat)
    requires Inv(h, live) && h.pools != [] && size <= HUGE_PAGE_SIZE
    requires var p := h.pools[h.curr];
      p.nfree == CountFree(p.bits) && AllAt(p.bits, p.cur, PagesFor(size), '0')
    ensures Malloc(h, size).Got? && Malloc(h, size).block == Small(h.curr, h.pools[h.curr].cur, PagesFor(size), size)
  {
    var p, n := h.pools[h.curr], PagesFor(size);
    assert PoolShape(p);
    hide AllFit, AllRecord, AllApart, PagesFor, PoolShape, FindPages, CountFree, AllAt;
    CursorShape(p);
    RunCounts(p.bits, p.cur, n);
    RunAtCursor(p.bits, p.cur, n);
    MallocPlacement(h, size);
  }

  lemma CursorShape(p: Pool)
    requires PoolShape(p)
    ensures |p.bits| == NUM_PAGES && p.cur <= NUM_PAGES
  {
  }

  /** A pool with a small block in use has an exact count. */
  lemma ExactCount(h: Heap, live: set<Block>, k: nat)
    requires Inv(h, live) && k < |h.pools| && !InLarge(live, k)
    ensures h.pools[k].nfree == CountFree(h.pools[k].bits)
  {
    assert Records(h.pools[k], k, live);
  }

  /**
   Reuse: a block of the current pool that is freed is what the next request for as many pages gets, and the
   pool's bits are as before.
   */
  lemma FreedFirst(h: Heap, live: set<Block>, b: Block, size: nat)
    requires Inv(h, live) && b in live && b.Small? && h.curr == b.pool && PagesFor(size) == b.n
    ensures Free(h, Addr(h, b)).Some? && Shape(Free(h, Addr(h, b)).value)
    ensures var a := Malloc(Free(h, Addr(h, b)).value, size);
      a.Got? && a.block == Small(b.pool, b.page, b.n, size)
  {
    hide Inv, PagesFor, Addr, Free, PoolShape, CountFree;
    InvShape(h, live);
    FreeSmallKeepsInv(h, live, b);
    FreeSmallEffect(h, live, b);
    SmallRecord(h, live, b);
    InvShape(Free(h, Addr(h, b)).value, live - {b});
    var h' := Free(h, Addr(h, b)).value;
    StillSmall(h, live, b);
    ExactCount(h', live - {b}, b.pool);
    FreedRun(h'.pools[b.pool].bits, b.page, b.n);
    PagesFit(size);
    NextFit(h', live - {b}, size);
  }

  lemma InvShape(h: Heap, live: set<Block>)
    requires Inv(h, live)
    ensures Shape(h)
  {
  }

  lemma StillSmall(h: Heap, live: set<Block>, b: Block)
    requires Inv(h, live) && b in live && b.Small?
    ensures !InLarge(live - {b}, b.pool)
  {
    hide Inv, InLarge;
    SmallNotInLarge(h, live, b);
    InSmallRemove(h, live, b, b.pool, b.page);
  }

  lemma FreedRun(s: seq<char>, i: nat, n: nat)
    requires i + n <= |s| && forall k {:trigger s[k]} :: i <= k < i + n ==> s[k] == '0'
    ensures AllAt(s, i, n, '0')
  {
  }

  lemma PagesFit(size: nat)
    requires PagesFor(size) <= NUM_PAGES
    ensures size <= HUGE_PAGE_SIZE
  {
  }

  /** Adjacency: two small requests in a row are neighbours when the pages behind the first are free. */
  lemma NextAdjacent(h: Heap, live: set<Block>, size: nat, size': nat)
    requires Inv(h, live) && h.pools != [] && size <= HUGE_PAGE_SIZE && size' <= HUGE_PAGE_SIZE && Malloc(h, size).Got?
    requires var a := Malloc(h, size);
      && a.block.Small? && a.block.pool < |a.heap.pools|
      && AllAt(a.heap.pools[a.block.pool].bits, a.block.page + PagesFor(size), PagesFor(size'), '0')
    ensures var a := Malloc(h, size);
      && Shape(a.heap) && Malloc(a.heap, size').Got?
      && Malloc(a.heap, size').block == Small(a.block.pool, a.block.page + PagesFor(size), PagesFor(size'), size')
  {
    hide Inv, PagesFor, Malloc, PoolShape, CountFree, AllAt, Accepts, FindPages;
    InvShape(h, live);
    MallocPlacement(h, size);
    MallocMarks(h, size);
    MallocKeepsInv(h, live, size);
    var a := Malloc(h, size);
    InvShape(a.heap, live + {a.block});
    SmallNotInLarge(a.heap, live + {a.block}, a.block);
    ExactCount(a.heap, live + {a.block}, a.block.pool);
    NextFit(a.heap, live + {a.block}, size');
  }

  /**
   A freed block is found again from anywhere the search comes by: the next request for as many pages needs no
   new pool and gets no later one.
   */
  lemma FreedFound(h: Heap, live: set<Block>, b: Block, size: nat)
    requires Inv(h, live) && b in live && b.Small? && PagesFor(size) == b.n
    requires Free(h, Addr(h, b)).Some? && Shape(Free(h, Addr(h, b)).value)
    requires var h' := Free(h, Addr(h, b)).value;
      h'.pools != [] && (h'.curr <= b.pool || b.n > h'.pools[h'.curr].nfree)
    ensures var h' := Free(h, Addr(h, b)).value; var a := Malloc(h', size);
      && a.Got? && a.block.pool <= b.pool && |a.heap.pools| == |h.pools|
      && (a.block.pool == b.pool ==> a.block == Small(b.pool, b.page, b.n, size))
  {
    hide Inv, PagesFor, Addr, Free, Malloc, PoolShape, CountFree, FindPages;
    InvShape(h, live);
    FreeSmallKeepsInv(h, live, b);
    FreeSmallEffect(h, live, b);
    SmallRecord(h, live, b);
    var h' := Free(h, Addr(h, b)).value;
    StillSmall(h, live, b);
    ExactCount(h', live - {b}, b.pool);
    var q := h'.pools[b.pool];
    FreedRun(q.bits, b.page, b.n);
    RunCounts(q.bits, b.page, b.n);
    RunAtCursor(q.bits, b.page, b.n);
    PagesFit(size);
    MallocPlacement(h', size);
  }
}
