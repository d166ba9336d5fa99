/**
 One pool as the program holds it: a record with its bit vector as a NUL-terminated string and an array of
 pages, linked to its neighbours. The search and the marking go through string functions.
 */
module MemPools {
  import opened PoolBits
  import opened PoolHeap

  const NUL: char := '\0'

  datatype Page = Page(addr: int, alloc_size: nat)

  // ----- strings

  /** A flag string: n characters c and the terminator. */
  method Flags(n: nat, c: char) returns (s: array<char>)
    ensures fresh(s) && s[..] == Repeat(c, n) + [NUL]
  {
    s := new char[n + 1](i => if i < n then c else NUL);
  }

  /** s holds the characters of text and the terminator. */
  ghost predicate Holds(s: array<char>, text: seq<char>)
    reads s
  {
    s[..] == text + [NUL] && NUL !in text
  }

  predicate MatchAt(text: seq<char>, at: nat, find: seq<char>) {
    at + |find| <= |text| && forall i {:trigger find[i]} :: 0 <= i < |find| ==> text[at + i] == find[i]
  }

  /** The least index from `from` on where `find` occurs and ends by `limit`; -1 if there is none. */
  function FindMatch(text: seq<char>, find: seq<char>, from: nat, limit: nat): (idx: int)
    requires limit <= |text|
    ensures idx == -1 || (from <= idx && idx + |find| <= limit && MatchAt(text, idx, find))
    ensures forall k: nat {:trigger MatchAt(text, k, find)} ::
      from <= k && k + |find| <= limit && (idx == -1 || k < idx) ==> !MatchAt(text, k, find)
    decreases limit - from
  {
    if from + |find| > limit then -1
    else if MatchAt(text, from, find) then from
    else FindMatch(text, find, from + 1, limit)
  }

  lemma FindMatchStep(text: seq<char>, find: seq<char>, at: nat, limit: nat)
    requires limit <= |text|
    ensures FindMatch(text, find, at, limit) ==
      if at + |find| > limit then -1 else if MatchAt(text, at, find) then at else FindMatch(text, find, at + 1, limit)
  {
  }

  lemma MatchSplit(text: seq<char>, at: nat, find: seq<char>)
    requires find != []
    ensures MatchAt(text, at, find) <==> at < |text| && text[at] == find[0] && MatchAt(text, at + 1, find[1..])
  {
    if at < |text| && text[at] == find[0] && MatchAt(text, at + 1, find[1..]) {
      forall i | 0 <= i < |find| ensures text[at + i] == find[i] {
        if i > 0 {
          assert find[1..][i - 1] == find[i];
        }
      }
    }
  }

  lemma FindMatchSkip(text: seq<char>, find: seq<char>, at: nat, limit: nat)
    requires limit <= |text| && find != [] && at < |text| && text[at] != find[0]
    ensures FindMatch(text, find, at, limit) == FindMatch(text, find, at + 1, limit)
  {
    hide FindMatch;
    MatchSplit(text, at, find);
    FindMatchStep(text, find, at, limit);
    FindMatchStep(text, find, at + 1, limit);
  }

  /** Searching for n zeros is searching for a run of n free pages. */
  lemma {:induction false} FindZeros(s: seq<char>, n: nat, from: nat, limit: nat)
    requires limit <= |s| && n > 0
    ensures FindMatch(s, Repeat('0', n), from, limit) == FindRun(s, n, from, limit)
    decreases limit - from
  {
    if from + n <= limit {
      ZerosAt(s, from, n);
      FindZeros(s, n, from + 1, limit);
    }
  }

  lemma ZerosAt(s: seq<char>, at: nat, n: nat)
    ensures MatchAt(s, at, Repeat('0', n)) <==> AllAt(s, at, n, '0')
  {
    var find := Repeat('0', n);
    if MatchAt(s, at, find) {
      forall i | at <= i < at + n ensures s[i] == '0' {
        assert find[i - at] == '0';
      }
    }
  }

  lemma NoNul(n: nat, c: char)
    requires c != NUL
    ensures NUL !in Repeat(c, n)
  {
  }

  /** strncmp(s + at, find + 1, len) == 0, where len is the length of find without its first character. */
  method SameRest(s: array<char>, at: nat, find: array<char>, len: nat, ghost text: seq<char>, ghost pat: seq<char>)
    returns (same: bool)
    requires Holds(s, text) && Holds(find, pat) && pat != [] && len == |pat| - 1 && at <= |text|
    ensures same <==> MatchAt(text, at, pat[1..])
  {
    var i := 0;
    while i < len && s[at + i] == find[1 + i]
      invariant i <= len && at + i <= |text| && forall k {:trigger pat[1..][k]} ::
        0 <= k < i ==> text[at + k] == pat[1..][k]
    {
      assert find[..][1 + i] == pat[1..][i] && s[..][at + i] == find[..][1 + i];
      i := i + 1;
    }
    same := i == len;
    if !same {
      assert find[..][1 + i] == pat[1..][i] && s[..][at + i] == s[at + i];
    }
  }

  /** strstr(s + from, find), as an index into s; -1 for NULL. */
  method Strstr(s: array<char>, from: nat, find: array<char>, ghost text: seq<char>, ghost pat: seq<char>)
    returns (pos: int)
    requires Holds(s, text) && Holds(find, pat) && from <= |text|
    ensures pos == FindMatch(text, pat, from, |text|)
  {
    hide FindMatch, MatchAt;
    pos := from;
    if find[0] == NUL {
      assert pat == [] by { EmptyPattern(find, pat); }
      EmptyMatch(text, pat, from);
      return;
    }
    assert pat != [] && find[..][0] == pat[0];
    while s[pos] != NUL
      invariant from <= pos <= |text| && FindMatch(text, pat, from, |text|) == FindMatch(text, pat, pos, |text|)
      decreases |text| - pos
    {
      assert s[..][pos] == text[pos];
      FindMatchStep(text, pat, pos, |text|);
      MatchSplit(text, pos, pat);
      if s[pos] == find[0] {
        var same := SameRest(s, pos + 1, find, find.Length - 2, text, pat);
        if same {
          MatchFits(text, pos, pat);
          return;
        }
      } else {
        FindMatchSkip(text, pat, pos, |text|);
      }
      if pos + |pat| > |text| {
        FindMatchStep(text, pat, pos + 1, |text|);
      }
      pos := pos + 1;
    }
    assert pos == |text| by { assert s[..][pos] == NUL; }
    FindMatchStep(text, pat, pos, |text|);
    pos := -1;
  }

  lemma MatchFits(text: seq<char>, at: nat, find: seq<char>)
    requires MatchAt(text, at, find)
    ensures at + |find| <= |text|
  {
  }

  lemma EmptyPattern(find: array<char>, pat: seq<char>)
    requires Holds(find, pat) && find[0] == NUL
    ensures pat == []
  {
    assert find[..][0] == (pat + [NUL])[0];
  }

  /** The empty string occurs everywhere. */
  lemma EmptyMatch(text: seq<char>, pat: seq<char>, at: nat)
    requires pat == [] && at <= |text|
    ensures forall limit: nat :: at <= limit <= |text| ==> FindMatch(text, pat, at, limit) == at
  {
  }

  /** The inner loop of `_strnstr`: past the next c, as long as characters are left. */
  method SkipTo(s: array<char>, c: char, from: nat, slen: nat, ghost text: seq<char>, ghost pat: seq<char>,
                ghost limit: nat)
    returns (found: bool, pos: nat, left: nat)
    requires Holds(s, text) && pat != [] && c == pat[0] && from <= limit <= |text| && slen >= limit - from
    requires limit < |text| ==> from + slen == limit
    ensures found ==> from < pos <= limit && pos + left == from + slen && text[pos - 1] == c
    ensures found ==> FindMatch(text, pat, from, limit) == FindMatch(text, pat, pos - 1, limit)
    ensures !found ==> FindMatch(text, pat, from, limit) == -1
  {
    hide FindMatch, MatchAt;
    found, pos, left := false, from, slen;
    while !found
      invariant from <= pos <= limit && pos + left == from + slen
      invariant !found ==> FindMatch(text, pat, from, limit) == FindMatch(text, pat, pos, limit)
      invariant found ==> from < pos && text[pos - 1] == c
      invariant found ==> FindMatch(text, pat, from, limit) == FindMatch(text, pat, pos - 1, limit)
      decreases limit - pos, !found
    {
      assert pos < |text| ==> s[..][pos] == text[pos];
      if left < 1 || s[pos] == NUL {
        FindMatchStep(text, pat, pos, limit);
        return;
      }
      if s[pos] != c {
        FindMatchSkip(text, pat, pos, limit);
      }
      found := s[pos] == c;
      pos, left := pos + 1, left - 1;
    }
  }

  /** `_strnstr`: the search limited to the first slen characters. */
  method Strnstr(s: array<char>, find: array<char>, slen: nat, ghost text: seq<char>, ghost pat: seq<char>)
    returns (pos: int)
    requires Holds(s, text) && Holds(find, pat)
    ensures pos == FindMatch(text, pat, 0, if slen <= |text| then slen else |text|)
  {
    hide FindMatch, MatchAt;
    ghost var limit := if slen <= |text| then slen else |text|;
    pos := 0;
    if find[0] == NUL {
      EmptyPattern(find, pat);
      EmptyMatch(text, pat, 0);
      return;
    }
    assert pat != [] && find[..][0] == pat[0];
    var left, len := slen, find.Length - 2;
    while true
      invariant 0 <= pos <= limit && pos + left == slen &&
        FindMatch(text, pat, 0, limit) == FindMatch(text, pat, pos, limit)
      decreases limit - pos
    {
      var found, after, rest := SkipTo(s, find[0], pos, left, text, pat, limit);
      if !found {
        return -1;
      }
      FindMatchStep(text, pat, after - 1, limit);
      if len > rest {
        return -1;
      }
      MatchSplit(text, after - 1, pat);
      var same := SameRest(s, after, find, len, text, pat);
      if same {
        MatchFits(text, after - 1, pat);
        return after - 1;
      }
      if after - 1 + |pat| > limit {
        FindMatchStep(text, pat, after, limit);
      }
      pos, left := after, rest;
    }
  }

  /** strncpy(s + at, flags, n) for a flag string of n characters. */
  method Strncpy(s: array<char>, at: nat, flags: array<char>, n: nat, ghost c: char)
    requires s != flags && at + n <= s.Length && flags[..] == Repeat(c, n) + [NUL]
    modifies s
    ensures s[..] == Paint(old(s[..]), at, n, c)
  {
    var i := 0;
    while i < n
      invariant i <= n
      invariant forall k {:trigger s[k]} :: 0 <= k < s.Length ==>
        s[k] == if at <= k < at + i then c else old(s[k])
    {
      assert flags[..][i] == c;
      s[at + i] := flags[i];
      i := i + 1;
    }
  }

  lemma PaintPrefix(s: seq<char>, t: seq<char>, at: nat, n: nat, c: char)
    requires |s| == |t| == NUM_PAGES + 1 && at + n <= NUM_PAGES && t == Paint(s, at, n, c)
    ensures t[..NUM_PAGES] == Paint(s[..NUM_PAGES], at, n, c) && t[NUM_PAGES] == s[NUM_PAGES]
  {
  }

  /** s as a pool's bit vector: 512 characters that are not NUL, and the terminator. */
  ghost predicate BitString(s: array<char>)
    reads s
  {
    s.Length == NUM_PAGES + 1 && Holds(s, s[..NUM_PAGES])
  }

  lemma BitsHeld(s: array<char>)
    requires BitString(s)
    ensures s.Length == NUM_PAGES + 1 && Holds(s, s[..NUM_PAGES])
  {
  }

  // ----- pools

  function Sizes(pages: seq<Page>): (s: seq<nat>)
    ensures |s| == |pages|
  {
    seq(|pages|, i requires 0 <= i < |pages| => pages[i].alloc_size)
  }

  class MemPool {
    const start_va: int
    var curr_idx: nat
    var nfree_pages: int
    var large_mem_pool: bool
    const head_page: array<Page>
    const bit_vector: array<char>
    var next: MemPool?
    var prev: MemPool?

    /** 512 pages at consecutive addresses, a bit string. */
    ghost predicate Sized()
      reads head_page, bit_vector
    {
      && head_page.Length == NUM_PAGES && BitString(bit_vector)
      && forall i {:trigger head_page[i]} :: 0 <= i < NUM_PAGES ==> head_page[i].addr == start_va + i * PAGE_SIZE
    }

    /** The pool as a value. */
    ghost function Value(): Pool
      requires Sized()
      reads `curr_idx, `nfree_pages, `large_mem_pool, head_page, bit_vector
    {
      Pool(start_va, curr_idx, nfree_pages, large_mem_pool, bit_vector[..NUM_PAGES], Sizes(head_page[..]))
    }

    constructor (start: int, nfree: int, large: bool)
      ensures fresh(head_page) && fresh(bit_vector) && next == null && prev == null
      ensures Sized() && Value() == FreshPool(start).(nfree := nfree, large := large)
    {
      start_va := start;
      curr_idx, nfree_pages, large_mem_pool := 0, nfree, large;
      head_page := new Page[NUM_PAGES](i => Page(start + i * PAGE_SIZE, 0));
      bit_vector := new char[NUM_PAGES + 1](i => if i < NUM_PAGES then '0' else NUL);
      next, prev := null, null;
      new;
      assert bit_vector[..NUM_PAGES] == Repeat('0', NUM_PAGES);
      assert Sizes(head_page[..]) == NoSizes();
    }

    /** Writes n flags from page idx on. */
    method Mark(idx: nat, n: nat, c: char)
      requires Sized() && idx + n <= NUM_PAGES && c != NUL
      modifies bit_vector
      ensures Sized() && Value() == old(Value()).(bits := Paint(old(Value()).bits, idx, n, c))
    {
      var flags := Flags(n, c);
      ghost var s := bit_vector[..];
      Strncpy(bit_vector, idx, flags, n, c);
      PaintPrefix(s, bit_vector[..], idx, n, c);
    }

    /** `_set_bit_vector`: two rounds of search; the first run found is marked as used. */
    method SetBitVector(nalloc_pages: nat) returns (idx: int)
      requires Sized() && PoolShape(Value()) && nalloc_pages > 0
      modifies `curr_idx, `nfree_pages, bit_vector
      ensures Sized() && Value() == SetBits(old(Value()), nalloc_pages).0 &&
        idx == SetBits(old(Value()), nalloc_pages).1
    {
      hide FindRun, FindMatch, BitString, Paint, Sizes;
      BitsHeld(bit_vector);
      ghost var bits, zeros := bit_vector[..NUM_PAGES], Repeat('0', nalloc_pages);
      NoNul(nalloc_pages, '0');
      FindZeros(bits, nalloc_pages, curr_idx, NUM_PAGES);
      FindZeros(bits, nalloc_pages, 0, SecondLimit(curr_idx));
      var free_flag := Flags(nalloc_pages, '0');
      idx := Strstr(bit_vector, curr_idx, free_flag, bits, zeros);
      if idx >= 0 {
        Mark(idx, nalloc_pages, '1');
        nfree_pages := nfree_pages - nalloc_pages;
        curr_idx := idx + nalloc_pages;
      } else {
        idx := Strnstr(bit_vector, free_flag, if curr_idx == 0 then 0xFFFFFFFF else curr_idx - 1, bits, zeros);
        if idx >= 0 {
          Mark(idx, nalloc_pages, '1');
          nfree_pages := nfree_pages - nalloc_pages;
          curr_idx := idx + nalloc_pages;
        }
      }
    }

    /** `_clr_bit_vector` */
    method ClrBitVector(idx: nat, nalloc_pages: nat)
      requires Sized() && idx + nalloc_pages <= NUM_PAGES
      modifies `curr_idx, `nfree_pages, bit_vector
      ensures Sized() && Value() == ClearBits(old(Value()), idx, nalloc_pages)
    {
      Mark(idx, nalloc_pages, '0');
      curr_idx := idx;
      nfree_pages := nfree_pages + nalloc_pages;
    }

    method SetFlag(large: bool, nfree: int)
      requires Sized()
      modifies `large_mem_pool, `nfree_pages
      ensures Sized() && Value() == old(Value()).(large := large, nfree := nfree)
    {
      large_mem_pool := large;
      nfree_pages := nfree;
    }

    /** Notes the size of a block at its first page. */
    method NoteSize(idx: nat, n: nat)
      requires Sized() && idx < NUM_PAGES
      modifies head_page
      ensures Sized() && Value() == old(Value()).(sizes := old(Value()).sizes[idx := n])
    {
      head_page[idx] := head_page[idx].(alloc_size := n);
      assert Sizes(head_page[..]) == old(Sizes(head_page[..]))[idx := n];
    }
  }
}
