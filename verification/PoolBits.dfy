/**
 The bit vector of one 2 MB pool: 512 characters, '0' for a free page and '1' for a used one. The search
 for a run of free pages goes in two rounds around a roving cursor.
 */
module PoolBits {
  const NUM_PAGES: nat := 512

  /** The n characters from idx on are all c. */
  predicate AllAt(s: seq<char>, idx: nat, n: nat, c: char) {
    idx + n <= |s| && forall i {:trigger s[i]} :: idx <= i < idx + n ==> s[i] == c
  }

  /** s with the n characters from idx on replaced by c. */
  function Paint(s: seq<char>, idx: nat, n: nat, c: char): (t: seq<char>)
    requires idx + n <= |s|
    ensures |t| == |s|
    ensures forall i {:trigger t[i]} :: 0 <= i < |s| ==> t[i] == if idx <= i < idx + n then c else s[i]
  {
    s[..idx] + Repeat(c, n) + s[idx + n..]
  }

  function Repeat(c: char, n: nat): (s: seq<char>)
    ensures |s| == n
  {
    seq(n, i => c)
  }

  function CountFree(s: seq<char>): (n: nat)
    ensures n <= |s|
  {
    if s == [] then 0 else CountFree(s[..|s| - 1]) + if s[|s| - 1] == '0' then 1 else 0
  }

  lemma {:induction false} CountConcat(s: seq<char>, t: seq<char>)
    ensures CountFree(s + t) == CountFree(s) + CountFree(t)
  {
    if t == [] {
      assert s + t == s;
    } else {
      assert (s + t)[..|s + t| - 1] == s + t[..|t| - 1];
      CountConcat(s, t[..|t| - 1]);
    }
  }

  lemma {:induction false} CountSame(s: seq<char>, c: char)
    requires AllAt(s, 0, |s|, c)
    ensures CountFree(s) == if c == '0' then |s| else 0
  {
    if s == [] {
    } else {
      CountSame(s[..|s| - 1], c);
    }
  }

  /** All pages are free exactly when the count says so. */
  lemma {:induction false} CountFull(s: seq<char>)
    ensures CountFree(s) == |s| <==> AllAt(s, 0, |s|, '0')
  {
    if s == [] {
    } else {
      CountFull(s[..|s| - 1]);
      if AllAt(s[..|s| - 1], 0, |s| - 1, '0') && s[|s| - 1] == '0' {
        assert forall i :: 0 <= i < |s| - 1 ==> s[i] == s[..|s| - 1][i];
      }
    }
  }

  /** Turning a run of n equal characters into the other one moves the count by n. */
  lemma CountPaint(s: seq<char>, idx: nat, n: nat, c: char, d: char)
    requires AllAt(s, idx, n, c) && ((c == '0' && d == '1') || (c == '1' && d == '0'))
    ensures CountFree(Paint(s, idx, n, d)) == if d == '0' then CountFree(s) + n else CountFree(s) - n
  {
    var a, b, z := s[..idx], s[idx..idx + n], s[idx + n..];
    assert s == a + b + z;
    hide CountFree;
    CountConcat(a + b, z);
    CountConcat(a, b);
    CountConcat(a + Repeat(d, n), z);
    CountConcat(a, Repeat(d, n));
    CountSame(b, c);
    CountSame(Repeat(d, n), d);
  }

  // ----- the search

  /** The least index from `from` on where n free pages start that end by `limit`; -1 if there is none. */
  function FindRun(s: seq<char>, n: nat, from: nat, limit: nat): (idx: int)
    requires limit <= |s| && n > 0
    ensures idx == -1 || (from <= idx && idx + n <= limit && AllAt(s, idx, n, '0'))
    ensures forall k: nat {:trigger AllAt(s, k, n, '0')} ::
      from <= k && k + n <= limit && (idx == -1 || k < idx) ==> !AllAt(s, k, n, '0')
    decreases limit - from
  {
    if from + n > limit then -1
    else if AllAt(s, from, n, '0') then from
    else FindRun(s, n, from + 1, limit)
  }

  /** The second round searches one character less than the cursor; for cursor 0 the limit wraps round. */
  function SecondLimit(cur: nat): (limit: nat) {
    if cur == 0 then NUM_PAGES else cur - 1
  }

  /**
   Where n pages are found: the least run at or after the cursor; failing that, the least run that ends
   before the cursor; -1 exactly when every run there is starts before the cursor and reaches it.
   */
  function FindPages(s: seq<char>, cur: nat, n: nat): (idx: int)
    requires |s| == NUM_PAGES && cur <= NUM_PAGES && n > 0
    ensures idx >= -1 && (idx >= 0 ==> AllAt(s, idx, n, '0') && (idx >= cur || idx + n < cur))
    ensures forall k: nat {:trigger AllAt(s, k, n, '0')} :: AllAt(s, k, n, '0') ==>
      && (idx >= cur && k >= cur ==> idx <= k)
      && (0 <= idx < cur ==> k < cur && (k + n < cur ==> idx <= k))
      && (idx == -1 ==> k < cur <= k + n)
  {
    var first := FindRun(s, n, cur, NUM_PAGES);
    if first >= 0 then first else FindRun(s, n, 0, SecondLimit(cur))
  }

  /**
   The search is incomplete: it fails exactly when each run of n free pages there is starts below the cursor
   and reaches it.
   */
  lemma MissedRun(s: seq<char>, cur: nat, n: nat)
    requires |s| == NUM_PAGES && cur <= NUM_PAGES && n > 0
    ensures FindPages(s, cur, n) == -1 <==>
      forall k: nat {:trigger AllAt(s, k, n, '0')} :: AllAt(s, k, n, '0') ==> k < cur <= k + n
  {
    var idx := FindPages(s, cur, n);
    if idx >= 0 {
      assert AllAt(s, idx, n, '0');
    }
  }
}
