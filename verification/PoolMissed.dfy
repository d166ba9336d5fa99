/**
 A run of five guarded calls after which two pages in a row are free but a request for two pages does not
 find them: the cursor stands between them.
 */
module PoolMissed {
  import opened PoolBits
  import opened PoolHeap
  import opened PoolInv
  import opened PoolFree
  import opened PoolRuns

  const MB2: nat := 0x200000

  function H(base: int, limit: nat, p: Pool): Heap { Heap(base, limit, [p], 0, MB2) }

  /** The pool after one, two and three allocations, and after one and two releases. */
  function OneTaken(start: int): Pool { Placed(FreshPool(start), 0, 1) }
  function TwoTaken(start: int): Pool { Placed(OneTaken(start), 1, 1) }
  function AllTaken(start: int): Pool { Placed(TwoTaken(start), 2, 510) }
  function FirstBack(start: int): Pool { ClearBits(AllTaken(start), 0, 1) }
  function TwoBack(start: int): Pool { ClearBits(FirstBack(start), 1, 1) }

  lemma FillFacts(start: int)
    ensures var p, q := OneTaken(start), TwoTaken(start);
      && PoolShape(p) && p.start == start && p.cur == 1 && p.nfree == 511 && AllAt(p.bits, 1, 1, '0') && !p.large
      && PoolShape(q) && q.start == start && q.cur == 2 && q.nfree == 510 && AllAt(q.bits, 2, 510, '0') && !q.large
  {
  }

  lemma BackFacts(start: int)
    ensures var p, q, r := AllTaken(start), FirstBack(start), TwoBack(start);
      && PoolShape(p) && p.start == start && !p.large && p.sizes[0] == 1
      && PoolShape(q) && q.start == start && !q.large && q.sizes[1] == 1
      && PoolShape(r) && r.start == start && r.cur == 1 && r.nfree == 2
      && AllAt(r.bits, 0, 2, '0') && AllAt(r.bits, 2, 510, '1')
  {
    FillFacts(start);
  }

  /** A request for n pages that are free at the cursor of the only pool. */
  lemma TakeAtCursor(base: int, limit: nat, p: Pool, n: nat, size: nat)
    requires limit >= MB2 && PoolShape(p) && p.start == base
    requires n == PagesFor(size) <= p.nfree && size <= MB2 && AllAt(p.bits, p.cur, n, '0')
    ensures Shape(H(base, limit, p)) && p.cur + n <= NUM_PAGES
    ensures Malloc(H(base, limit, p), size) == Got(H(base, limit, Placed(p, p.cur, n)), Small(0, p.cur, n, size))
  {
    var h := H(base, limit, p);
    assert FindPages(p.bits, p.cur, n) == p.cur;
    hide PoolShape, FindPages, PagesFor;
    assert h.pools[0 := Placed(p, p.cur, n)] == [Placed(p, p.cur, n)];
  }

  lemma FirstCall(base: int, limit: nat)
    requires limit >= MB2
    ensures Shape(Heap(base, limit, [], -1, 0))
    ensures Malloc(Heap(base, limit, [], -1, 0), PAGE_SIZE) ==
      Got(H(base, limit, OneTaken(base)), Small(0, 0, 1, PAGE_SIZE))
  {
    hide Request, FreshPool;
    FreshIs(base);
    TakeAtCursor(base, limit, FreshPool(base), 1, PAGE_SIZE);
    var h := Heap(base, limit, [], -1, 0);
    assert FreshPool(h.base + h.total) == FreshPool(base);
    assert h.pools + [FreshPool(base)] == [FreshPool(base)];
    assert Init(h) == Some(H(base, limit, FreshPool(base)));
  }

  lemma FreshIs(start: int)
    ensures var p := FreshPool(start);
      p.start == start && p.cur == 0 && p.nfree == NUM_PAGES && AllAt(p.bits, 0, 1, '0')
  {
  }

  lemma GiveBack(base: int, limit: nat, p: Pool, page: nat, n: nat)
    requires limit >= MB2 && PoolShape(p) && p.start == base && !p.large && page < NUM_PAGES && p.sizes[page] == n > 0
    ensures Shape(H(base, limit, p))
    ensures Free(H(base, limit, p), base + page * PAGE_SIZE) == Some(H(base, limit, ClearBits(p, page, n)))
  {
    var h := H(base, limit, p);
    assert p.sizes[page] + page <= NUM_PAGES;
    hide PoolShape, ClearBits;
    PoolOfIs(h, base + page * PAGE_SIZE, 0, 0);
    assert h.pools[0 := ClearBits(p, page, n)] == [ClearBits(p, page, n)];
  }

  /** Pages 0 and 1 are the only free run of two, and the cursor at 1 cuts it. */
  lemma Unfound(start: int)
    ensures FindPages(TwoBack(start).bits, 1, 2) == -1
  {
    BackFacts(start);
    hide TwoBack, PoolShape;
    var s := TwoBack(start).bits;
    forall k: nat {:trigger AllAt(s, k, 2, '0')} | AllAt(s, k, 2, '0') ensures k < 1 <= k + 2 {
      assert s[k] == s[k + 1] == '0';
    }
    MissedRun(s, 1, 2);
  }

  /** The request for two pages goes to a new pool, or fails. */
  lemma TwoPages(base: int, limit: nat)
    requires limit >= MB2
    ensures var h := H(base, limit, TwoBack(base)); var p := FreshPool(base + MB2);
      Shape(h) && Malloc(h, 2 * PAGE_SIZE) ==
        if limit < 2 * MB2 then OutOfMemory
        else Got(Heap(base, limit, [TwoBack(base), Placed(p, 0, 2)], 1, 2 * MB2), Small(1, 0, 2, 2 * PAGE_SIZE))
  {
    BackFacts(base);
    Unfound(base);
    FreshFits(base + MB2, 2);
    hide FindPages, TwoBack, FreshPool, PoolShape;
    var h, p := H(base, limit, TwoBack(base)), FreshPool(base + MB2);
    assert PagesFor(2 * PAGE_SIZE) == 2;
    FreshIs(base + MB2);
    assert SmallFrom(h, 0, 2, 2 * PAGE_SIZE) == SmallFrom(h, 1, 2, 2 * PAGE_SIZE);
    assert (h.pools + [p])[1 := Placed(p, 0, 2)] == [TwoBack(base), Placed(p, 0, 2)];
  }

  /**
   Five guarded calls lead to a heap of one pool whose only free pages are its first two; a request for two
   pages then takes a second pool, and where there is no room for one it fails.
   */
  lemma MissedReachable(base: int, limit: nat) returns (ss: seq<World>, ops: seq<Op>)
    requires limit >= MB2
    ensures Run(base, limit, ss, ops) && |ops| == 5
    ensures var h := ss[5].heap;
      && Shape(h) && |h.pools| == 1 && h.pools[0].nfree == 2 && AllAt(h.pools[0].bits, 0, 2, '0')
      && (limit < 2 * MB2 ==> Malloc(h, 2 * PAGE_SIZE) == OutOfMemory)
      && (limit >= 2 * MB2 ==>
            && Malloc(h, 2 * PAGE_SIZE).Got? && Malloc(h, 2 * PAGE_SIZE).block == Small(1, 0, 2, 2 * PAGE_SIZE)
            && |Malloc(h, 2 * PAGE_SIZE).heap.pools| == 2)
  {
    FillFacts(base);
    BackFacts(base);
    hide Malloc, Free, Shape, PoolShape, OneTaken, TwoTaken, AllTaken, FirstBack, TwoBack, PagesFor;
    PageCounts();
    FirstCall(base, limit);
    Fill(base, limit);
    Back(base, limit);
    TwoPages(base, limit);
    var x, y, z := Small(0, 0, 1, PAGE_SIZE), Small(0, 1, 1, PAGE_SIZE), Small(0, 2, 510, 510 * PAGE_SIZE);
    ops := [Allocate(PAGE_SIZE), Allocate(PAGE_SIZE), Allocate(510 * PAGE_SIZE), Release(x), Release(y)];
    ss := [
      World(Heap(base, limit, [], -1, 0), {}),
      World(H(base, limit, OneTaken(base)), {x}),
      World(H(base, limit, TwoTaken(base)), {x, y}),
      World(H(base, limit, AllTaken(base)), {x, y, z}),
      World(H(base, limit, FirstBack(base)), {y, z}),
      World(H(base, limit, TwoBack(base)), {z})
    ];
    assert Next(ss[0], ops[0], ss[1]);
    assert Next(ss[1], ops[1], ss[2]);
    assert Next(ss[2], ops[2], ss[3]);
    assert Next(ss[3], ops[3], ss[4]);
    assert Next(ss[4], ops[4], ss[5]);
  }

  lemma PageCounts()
    ensures PagesFor(PAGE_SIZE) == 1 && PagesFor(510 * PAGE_SIZE) == 510
  {
  }

  lemma Fill(base: int, limit: nat)
    requires limit >= MB2
    ensures var h := H(base, limit, OneTaken(base));
      Shape(h) && Malloc(h, PAGE_SIZE) == Got(H(base, limit, TwoTaken(base)), Small(0, 1, 1, PAGE_SIZE))
    ensures var h := H(base, limit, TwoTaken(base));
      Shape(h) && Malloc(h, 510 * PAGE_SIZE) == Got(H(base, limit, AllTaken(base)), Small(0, 2, 510, 510 * PAGE_SIZE))
  {
    FillFacts(base);
    PageCounts();
    hide Malloc, Shape, PoolShape, Placed, OneTaken, PagesFor;
    TakeAtCursor(base, limit, OneTaken(base), 1, PAGE_SIZE);
    TakeAtCursor(base, limit, TwoTaken(base), 510, 510 * PAGE_SIZE);
  }

  lemma Back(base: int, limit: nat)
    requires limit >= MB2
    ensures var h := H(base, limit, AllTaken(base));
      Shape(h) && Free(h, base) == Some(H(base, limit, FirstBack(base)))
    ensures var h := H(base, limit, FirstBack(base));
      Shape(h) && Free(h, base + PAGE_SIZE) == Some(H(base, limit, TwoBack(base)))
  {
    BackFacts(base);
    hide Free, Shape, PoolShape, ClearBits, AllTaken;
    GiveBack(base, limit, AllTaken(base), 0, 1);
    GiveBack(base, limit, FirstBack(base), 1, 1);
  }
}
