/**
 The allocator state as a value, and what `pim_malloc` and `pim_free` do to it.

 The heap is a list of 2 MB pools in list order, each with its bit vector, its cached count of free pages,
 its cursor, its large flag and the sizes noted at the first page of each block. Pools come from a window
 of `limit` bytes at `base`; `total` is how much of it is handed out.
 */
module PoolHeap {
  import opened PoolBits

  const PAGE_SIZE: nat := 4096
  const HUGE_PAGE_SIZE: nat := 0x200000
  /** `mmap_drv` takes its size as an int. */
  const MAX_REQUEST: nat := 0x7FE00000

  datatype Option<T> = None | Some(value: T)

  datatype Pool = Pool(start: int, cur: nat, nfree: int, large: bool, bits: seq<char>, sizes: seq<nat>)

  datatype Heap = Heap(base: int, limit: nat, pools: seq<Pool>, curr: int, total: nat)

  /** A block in use: n pages of one pool, or num whole pools. `size` is what was asked for. */
  datatype Block = Small(pool: nat, page: nat, n: nat, size: nat) | Large(pool: nat, num: nat, size: nat)

  /** The answer to a request; without memory the program ends. */
  datatype Answer = Got(heap: Heap, block: Block) | OutOfMemory

  /** What every pool always satisfies: 512 bits, the cursor inside, no noted size past the end. */
  ghost predicate PoolShape(p: Pool) {
    && |p.bits| == NUM_PAGES && |p.sizes| == NUM_PAGES && p.cur <= NUM_PAGES
    && (forall i {:trigger p.bits[i]} :: 0 <= i < NUM_PAGES ==> p.bits[i] == '0' || p.bits[i] == '1')
    && (forall i {:trigger p.sizes[i]} :: 0 <= i < NUM_PAGES ==> i + p.sizes[i] <= NUM_PAGES)
  }

  /** The k'th pool in list order starts k times 2 MB into the window. */
  ghost predicate Shape(h: Heap) {
    && (forall k {:trigger h.pools[k]} :: 0 <= k < |h.pools| ==>
          PoolShape(h.pools[k]) && h.pools[k].start == h.base + k * HUGE_PAGE_SIZE)
    && h.total == |h.pools| * HUGE_PAGE_SIZE && h.total <= h.limit
    && (if h.pools == [] then h.curr == -1 else 0 <= h.curr < |h.pools|)
  }

  /** Pages needed for a request: rounded up, and one page too many for 1 to 4095 bytes. */
  function PagesFor(size: nat): (n: nat)
    ensures n > 0 && size <= n * PAGE_SIZE
    ensures size >= PAGE_SIZE ==> (n - 1) * PAGE_SIZE < size
    ensures 0 < size < PAGE_SIZE ==> n == 2
    ensures size <= HUGE_PAGE_SIZE ==> n <= NUM_PAGES
  {
    var n := if size / PAGE_SIZE != 0 then size / PAGE_SIZE else 1;
    if size % PAGE_SIZE != 0 then n + 1 else n
  }

  function PoolsFor(size: nat): (num: nat)
    ensures size <= num * HUGE_PAGE_SIZE && (size > 0 ==> (num - 1) * HUGE_PAGE_SIZE < size)
    ensures size > HUGE_PAGE_SIZE ==> num >= 2
  {
    var tmp := size / HUGE_PAGE_SIZE;
    if size % HUGE_PAGE_SIZE != 0 then tmp + 1 else tmp
  }

  // ----- one pool

  /** Marks n pages at idx as used. */
  function Take(p: Pool, idx: nat, n: nat): Pool
    requires idx + n <= |p.bits|
  {
    p.(bits := Paint(p.bits, idx, n, '1'), nfree := p.nfree - n, cur := idx + n)
  }

  /** `_set_bit_vector`: the new pool and the index found, or -1 and no change. */
  function SetBits(p: Pool, n: nat): (r: (Pool, int))
    requires PoolShape(p) && n > 0
  {
    var idx := FindPages(p.bits, p.cur, n);
    if idx >= 0 then (Take(p, idx, n), idx) else (p, -1)
  }

  /** `_clr_bit_vector` */
  function ClearBits(p: Pool, idx: nat, n: nat): Pool
    requires idx + n <= |p.bits|
  {
    p.(bits := Paint(p.bits, idx, n, '0'), cur := idx, nfree := p.nfree + n)
  }

  function NoSizes(): (s: seq<nat>)
    ensures |s| == NUM_PAGES
  {
    seq(NUM_PAGES, i => 0)
  }

  function FreshPool(start: int): (p: Pool)
    ensures PoolShape(p)
  {
    Pool(start, 0, NUM_PAGES, false, Repeat('0', NUM_PAGES), NoSizes())
  }

  /** Pool i of num that `_large_mem_pool_allocation` makes: no free pages, every flag set but the last. */
  function LargePool(start: int, num: nat, i: nat): (p: Pool)
    ensures PoolShape(p)
  {
    FreshPool(start + i * HUGE_PAGE_SIZE).(nfree := 0, large := i + 1 < num,
                                           sizes := if i == 0 then NoSizes()[0 := NUM_PAGES] else NoSizes())
  }

  // ----- growing

  /** `mmap_drv`: hands out the next pools of the window, or ends the program. */
  function Grow(h: Heap, added: seq<Pool>): Option<Heap> {
    if h.total + |added| * HUGE_PAGE_SIZE > h.limit then None
    else Some(h.(pools := h.pools + added, total := h.total + |added| * HUGE_PAGE_SIZE))
  }

  function LargePools(h: Heap, num: nat): (s: seq<Pool>)
    ensures |s| == num
  {
    seq(num, i requires 0 <= i < num => LargePool(h.base + h.total, num, i))
  }

  /** The first call of all makes the first pool. */
  function Init(h: Heap): Option<Heap> {
    if h.curr != -1 then Some(h)
    else match Grow(h, [FreshPool(h.base + h.total)])
      case None => None
      case Some(g) => Some(g.(curr := 0))
  }

  // ----- malloc

  /** Pool k takes n pages and becomes the current pool. */
  function PlaceIn(h: Heap, k: nat, n: nat, size: nat): (a: Answer)
    requires k < |h.pools| && PoolShape(h.pools[k]) && n > 0 && FindPages(h.pools[k].bits, h.pools[k].cur, n) >= 0
    ensures a.Got?
  {
    var idx: nat := FindPages(h.pools[k].bits, h.pools[k].cur, n);
    var p := Take(h.pools[k], idx, n);
    Got(h.(pools := h.pools[k := p.(sizes := p.sizes[idx := n])], curr := k), Small(k, idx, n, size))
  }

  /** Pool p has room for n pages as far as its count and its search can tell. */
  predicate Accepts(p: Pool, n: nat)
    requires |p.bits| == NUM_PAGES && p.cur <= NUM_PAGES && n > 0
  {
    n <= p.nfree && FindPages(p.bits, p.cur, n) >= 0
  }

  /** The search for n pages from pool k on; when no pool is left, a new one. */
  function SmallFrom(h: Heap, k: nat, n: nat, size: nat): Answer
    requires Shape(h) && 0 < n <= NUM_PAGES
    decreases |h.pools| - k
  {
    if k >= |h.pools| then
      match Grow(h, [FreshPool(h.base + h.total)])
      case None => OutOfMemory
      case Some(g) => FreshFits(h.base + h.total, n); PlaceIn(g, |h.pools|, n, size)
    else if Accepts(h.pools[k], n) then PlaceIn(h, k, n, size)
    else SmallFrom(h, k + 1, n, size)
  }

  lemma FreshFits(start: int, n: nat)
    requires 0 < n <= NUM_PAGES
    ensures FindPages(FreshPool(start).bits, 0, n) == 0
  {
    assert AllAt(FreshPool(start).bits, 0, n, '0');
  }

  /** The reuse branch: the last two pools, both completely free. */
  predicate Reusable(h: Heap, num: nat) {
    && num == 2 && |h.pools| >= 2
    && h.pools[|h.pools| - 2].nfree == NUM_PAGES && h.pools[|h.pools| - 1].nfree == NUM_PAGES
  }

  function LargeAlloc(h: Heap, num: nat, size: nat): Answer {
    if Reusable(h, num) then
      var k := |h.pools| - 2;
      Got(h.(pools := h.pools[k := h.pools[k].(large := true, nfree := 0)]
         [k + 1 := h.pools[k + 1].(large := true, nfree := 0)],
             curr := k),
          Large(k, 2, size))
    else match Grow(h, LargePools(h, num))
      case None => OutOfMemory
      case Some(g) => Got(g.(curr := |h.pools|), Large(|h.pools|, num, size))
  }

  /** `pim_malloc` on an initialised heap. */
  function Request(h: Heap, size: nat): Answer
    requires Shape(h) && h.pools != []
  {
    var n := PagesFor(size);
    if size > HUGE_PAGE_SIZE then LargeAlloc(h, PoolsFor(size), size)
    else SmallFrom(h, if n > h.pools[h.curr].nfree then 0 else h.curr, n, size)
  }

  lemma InitShape(h: Heap)
    requires Shape(h)
    ensures Init(h).Some? ==> Shape(Init(h).value) && Init(h).value.pools != []
  {
  }

  /** `pim_malloc` */
  function Malloc(h: Heap, size: nat): Answer
    requires Shape(h)
  {
    InitShape(h);
    match Init(h)
    case None => OutOfMemory
    case Some(g) => Request(g, size)
  }

  // ----- addresses

  /** Where a block starts: the pointer `pim_malloc` returns. */
  function Addr(h: Heap, b: Block): int
    requires b.pool < |h.pools|
  {
    h.pools[b.pool].start + if b.Small? then b.page * PAGE_SIZE else 0
  }

  /** The bytes a block takes up. */
  function Extent(b: Block): nat {
    if b.Small? then b.n * PAGE_SIZE else b.num * HUGE_PAGE_SIZE
  }

  // ----- free

  /** The first pool from k on whose range holds the address; the number of pools if there is none. */
  function PoolOf(h: Heap, addr: int, k: nat): (i: nat)
    requires k <= |h.pools|
    ensures k <= i <= |h.pools|
    ensures i < |h.pools| ==> h.pools[i].start <= addr < h.pools[i].start + HUGE_PAGE_SIZE
    decreases |h.pools| - k
  {
    if k == |h.pools| then k
    else if h.pools[k].start <= addr <= h.pools[k].start + HUGE_PAGE_SIZE - 1 then k
    else PoolOf(h, addr, k + 1)
  }

  /** A pool after the free walk has passed it. */
  function Released(p: Pool): Pool {
    p.(nfree := NUM_PAGES, large := false)
  }

  /** The free walk from pool k: it goes on while flags are set. */
  function NeedFree(pools: seq<Pool>, k: nat): (r: seq<Pool>)
    ensures |r| == |pools|
    decreases |pools| - k
  {
    if k >= |pools| then pools
    else
      var next := pools[k := Released(pools[k])];
      if !pools[k].large then next else NeedFree(next, k + 1)
  }

  /** `pim_free`; None where the program ends with an assertion. */
  function Free(h: Heap, addr: int): Option<Heap>
    requires Shape(h)
  {
    var k := PoolOf(h, addr, 0);
    if k == |h.pools| then None
    else if h.pools[k].large then Some(h.(pools := NeedFree(h.pools, k)))
    else
      var page := (addr - h.pools[k].start) / PAGE_SIZE;
      var n := h.pools[k].sizes[page];
      if n == 0 then None
      else Some(h.(pools := h.pools[k := ClearBits(h.pools[k], page, n)]))
  }
}
