/** The host side of a `gemm` job: padding, aligning into 512-column chunks, and unpadding. */
module GemmHost {
  import opened Arith
  import opened Machine

  const CHUNK: nat := 512

  function PadSize(r: nat): nat {
    if r % 512 != 0 then 512 * (r / 512 + 1) else r
  }

  lemma PadSizeFacts(r: nat)
    ensures r <= PadSize(r) && PadSize(r) % 512 == 0 && PadSize(r) == 512 * (PadSize(r) / 512)
    ensures r > 0 ==> PadSize(r) > 0
  {
  }

  /** Flat element d of a row-major matrix whose rows were padded from r to rpad columns with zeros. */
  function PaddedAt(src: seq<int>, r: nat, rpad: nat, d: nat): int
    requires rpad > 0
  {
    if d % rpad < r then At(src, (d / rpad) * r + d % rpad) else 0
  }

  /** Where flat element d of the chunked form comes from in the row-major one. */
  function AlignSource(q: nat, rpad: nat, d: nat): nat
    requires q > 0
  {
    ((d / 512) % q) * rpad + 512 * ((d / 512) / q) + d % 512
  }

  function PaddedMatrix(src: seq<int>, rows: nat, r: nat, rpad: nat): (s: seq<int>)
    requires rpad > 0
    ensures |s| == rows * rpad
  {
    seq(rows * rpad, d requires 0 <= d < rows * rpad => PaddedAt(src, r, rpad, d))
  }

  function AlignedMatrix(padded: seq<int>, q: nat, rpad: nat): (s: seq<int>)
    ensures |s| == q * rpad
  {
    seq(q * rpad, d requires 0 <= d < q * rpad => if q == 0 then 0 else At(padded, AlignSource(q, rpad, d)))
  }

  function Zeros(n: nat): (s: seq<int>)
    ensures |s| == n
  {
    seq(n, i => 0)
  }

  /** The B buffer the host hands to the driver. */
  function MatB(srcB: seq<int>, q: nat, r: nat): seq<int> {
    if r % 512 == 0 then srcB
    else if r > 512 then AlignedMatrix(PaddedMatrix(srcB, q, r, PadSize(r)), q, PadSize(r))
    else Zeros(q * PadSize(r))
  }

  /** The bias buffer the host hands to the driver. */
  function MatBias(bias: seq<int>, p: nat, r: nat): seq<int> {
    if r % 512 == 0 then bias else PaddedMatrix(bias, p, r, PadSize(r))
  }

  method ZeroFill(a: array<int>)
    modifies a
    ensures a[..] == Zeros(a.Length)
  {
    var i := 0;
    while i < a.Length
      invariant i <= a.Length && a[..i] == Zeros(i)
    {
      a[i] := 0;
      i := i + 1;
    }
  }

  /** Rows before k are copied, and the first n columns of row k; everything else is still zero. */
  ghost predicate PadProgress(s: seq<int>, src: seq<int>, rows: nat, r: nat, rpad: nat, k: nat, n: nat) {
    && rpad > 0 && |s| == rows * rpad
    && forall d {:trigger s[d]} :: 0 <= d < |s| ==>
         s[d] == if d / rpad < k || (d / rpad == k && d % rpad < n) then PaddedAt(src, r, rpad, d) else 0
  }

  lemma PadStep(s: seq<int>, src: seq<int>, rows: nat, r: nat, rpad: nat, k: nat, n: nat)
    requires PadProgress(s, src, rows, r, rpad, k, n)
    requires k < rows && n < r <= rpad && k * r + n < |src|
    ensures k * rpad + n < |s|
    ensures PadProgress(s[k * rpad + n := src[k * r + n]], src, rows, r, rpad, k, n + 1)
  {
    RowMajorBound(k, rows, n, rpad);
    DivMod(k, n, rpad);
    var t := s[k * rpad + n := src[k * r + n]];
    forall d | 0 <= d < |t|
      ensures t[d] == if d / rpad < k || (d / rpad == k && d % rpad < n + 1) then PaddedAt(src, r, rpad, d) else 0
    {
      FlatSplit(d, rows, rpad);
    }
  }

  lemma PadRowDone(s: seq<int>, src: seq<int>, rows: nat, r: nat, rpad: nat, k: nat)
    requires PadProgress(s, src, rows, r, rpad, k, r)
    ensures PadProgress(s, src, rows, r, rpad, k + 1, 0)
  {
    forall d | 0 <= d < |s|
      ensures s[d] == if d / rpad < k + 1 || (d / rpad == k + 1 && d % rpad < 0) then PaddedAt(src, r, rpad, d) else 0
    {
    }
  }

  lemma PadFinish(s: seq<int>, src: seq<int>, rows: nat, r: nat, rpad: nat)
    requires PadProgress(s, src, rows, r, rpad, rows, 0)
    ensures s == PaddedMatrix(src, rows, r, rpad)
  {
    forall d | 0 <= d < |s| ensures s[d] == PaddedMatrix(src, rows, r, rpad)[d] {
      FlatSplit(d, rows, rpad);
    }
  }

  lemma PadStart(src: seq<int>, rows: nat, r: nat, rpad: nat)
    requires rpad > 0
    ensures PadProgress(Zeros(rows * rpad), src, rows, r, rpad, 0, 0)
  {
    forall d | 0 <= d < rows * rpad ensures d / rpad >= 0 && d % rpad >= 0 {
      FlatSplit(d, rows, rpad);
    }
  }

  /** Copies a row-major matrix of r columns into zeroed rows of rpad columns. */
  method Pad(src: array<int>, padded: array<int>, rows: nat, r: nat, rpad: nat)
    requires src.Length == rows * r && padded.Length == rows * rpad && 0 < rpad && r <= rpad
    requires src != padded && padded[..] == Zeros(rows * rpad)
    modifies padded
    ensures padded[..] == PaddedMatrix(src[..], rows, r, rpad)
  {
    hide PadProgress, PaddedMatrix, Zeros;
    PadStart(src[..], rows, r, rpad);
    var k := 0;
    while k < rows
      invariant k <= rows
      invariant PadProgress(padded[..], src[..], rows, r, rpad, k, 0)
    {
      var n := 0;
      while n < r
        invariant n <= r
        invariant PadProgress(padded[..], src[..], rows, r, rpad, k, n)
      {
        RowMajorBound(k, rows, n, r);
        PadStep(padded[..], src[..], rows, r, rpad, k, n);
        padded[k * rpad + n] := src[k * r + n];
        n := n + 1;
      }
      PadRowDone(padded[..], src[..], rows, r, rpad, k);
      k := k + 1;
    }
    PadFinish(padded[..], src[..], rows, r, rpad);
  }

  ghost predicate AlignProgress(s: seq<int>, padded: seq<int>, q: nat, rpad: nat, n: nat) {
    && q > 0 && n <= |s|
    && forall d {:trigger s[d]} :: 0 <= d < n ==> s[d] == At(padded, AlignSource(q, rpad, d))
  }

  lemma AlignIndex(q: nat, rpad: nat, i: nat, j: nat, k: nat)
    requires j < q && k < CHUNK && i < rpad / 512 && rpad % 512 == 0
    ensures AlignSource(q, rpad, (i * q + j) * 512 + k) == i * CHUNK + j * rpad + k < q * rpad
    ensures (i * q + j) * 512 + k < q * rpad
  {
    var d := (i * q + j) * 512 + k;
    assert d / 512 == i * q + j && d % 512 == k;
    DivMod(i, j, q);
    RowMajorBound(j, q, i * 512 + k, rpad);
    RowMajorBound(i, rpad / 512, j, q);
    assert (rpad / 512) * q * 512 == q * rpad;
  }

  /** Rearranges a padded row-major matrix into chunks of 512 columns, each chunk row-major. */
  method Align(padded: array<int>, align: array<int>, q: nat, rpad: nat)
    requires padded.Length == align.Length == q * rpad && rpad % 512 == 0 && padded != align
    modifies align
    ensures align[..] == AlignedMatrix(padded[..], q, rpad)
  {
    hide AlignProgress, AlignedMatrix, AlignSource;
    var col_chunk_num := rpad / CHUNK;
    var dest_idx := 0;
    var i := 0;
    AlignStart(align[..], padded[..], q, rpad);
    while i < col_chunk_num
      invariant i <= col_chunk_num && dest_idx == (i * q) * 512
      invariant q > 0 ==> AlignProgress(align[..], padded[..], q, rpad, dest_idx)
    {
      var j := 0;
      while j < q
        invariant j <= q && dest_idx == (i * q + j) * 512
        invariant q > 0 ==> AlignProgress(align[..], padded[..], q, rpad, dest_idx)
      {
        var k := 0;
        while k < CHUNK
          invariant k <= CHUNK && dest_idx == (i * q + j) * 512 + k
          invariant q > 0 ==> AlignProgress(align[..], padded[..], q, rpad, dest_idx)
        {
          AlignIndex(q, rpad, i, j, k);
          AlignStep(align[..], padded[..], q, rpad, dest_idx, i * CHUNK + j * rpad + k);
          align[dest_idx] := padded[i * CHUNK + j * rpad + k];
          dest_idx := dest_idx + 1;
          k := k + 1;
        }
        j := j + 1;
      }
      i := i + 1;
    }
    AlignFinish(align[..], padded[..], q, rpad, dest_idx);
  }

  lemma AlignStart(s: seq<int>, padded: seq<int>, q: nat, rpad: nat)
    ensures q > 0 ==> AlignProgress(s, padded, q, rpad, 0)
  {
  }

  lemma AlignStep(s: seq<int>, padded: seq<int>, q: nat, rpad: nat, n: nat, from: nat)
    requires AlignProgress(s, padded, q, rpad, n) && n < |s|
    requires from == AlignSource(q, rpad, n) < |padded|
    ensures AlignProgress(s[n := padded[from]], padded, q, rpad, n + 1)
  {
  }

  lemma AlignFinish(s: seq<int>, padded: seq<int>, q: nat, rpad: nat, n: nat)
    requires |s| == q * rpad && rpad % 512 == 0 && n == ((rpad / 512) * q) * 512
    requires q > 0 ==> AlignProgress(s, padded, q, rpad, n)
    ensures s == AlignedMatrix(padded, q, rpad)
  {
    assert n == q * rpad;
  }

  /** The B buffer for one job: zeroed scratch buffers, then pad and align when r is over 512. */
  method PrepareB(srcB: array<int>, q: nat, r: nat) returns (mat_B: array<int>)
    requires srcB.Length == q * r && r > 0
    ensures mat_B[..] == MatB(srcB[..], q, r)
  {
    PadSizeFacts(r);
    var r_need_align := r % 512 != 0;
    var r_pad_size := if r_need_align then 512 * (r / 512 + 1) else r;
    var padded := new int[q * r_pad_size];
    var align := new int[q * r_pad_size];
    ZeroFill(padded);
    ZeroFill(align);
    if r != 512 && r > 512 {
      Pad(srcB, padded, q, r, r_pad_size);
      Align(padded, align, q, r_pad_size);
    }
    mat_B := if r_need_align then align else srcB;
  }

  /** Fills the padded bias buffer row by row, zeros included. */
  method PadBias(bias: array<int>, padded: array<int>, p: nat, r: nat, r_pad_size: nat)
    requires bias.Length == p * r && padded.Length == p * r_pad_size && bias != padded && r_pad_size > 0
    modifies padded
    ensures padded[..] == PaddedMatrix(bias[..], p, r, r_pad_size)
  {
    hide PaddedMatrix;
    ghost var n, target := 0, PaddedMatrix(bias[..], p, r, r_pad_size);
    var i := 0;
    while i < p
      invariant i <= p && n == i * r_pad_size <= |target| && padded[..n] == target[..n]
    {
      var j := 0;
      while j < r_pad_size
        invariant j <= r_pad_size && n == i * r_pad_size + j <= |target| && padded[..n] == target[..n]
      {
        PaddedCell(bias[..], p, r, r_pad_size, i, j);
        if j < r {
          padded[i * r_pad_size + j] := bias[i * r + j];
        } else {
          padded[i * r_pad_size + j] := 0;
        }
        PrefixStep(padded[..], target, n);
        j, n := j + 1, n + 1;
      }
      i := i + 1;
    }
    assert padded[..] == target;
  }

  /** The bias buffer for one job. */
  method PrepareBias(bias: array<int>, p: nat, r: nat) returns (mat_bias: array<int>)
    requires bias.Length == p * r && r > 0
    ensures mat_bias[..] == MatBias(bias[..], p, r)
  {
    PadSizeFacts(r);
    var r_need_align := r % 512 != 0;
    var r_pad_size := if r_need_align then 512 * (r / 512 + 1) else r;
    var padded := new int[p * r_pad_size];
    ZeroFill(padded);
    PadBias(bias, padded, p, r, r_pad_size);
    mat_bias := if r_need_align then padded else bias;
  }

  lemma PrefixStep(s: seq<int>, t: seq<int>, n: nat)
    requires n < |s| && n < |t| && s[..n] == t[..n] && s[n] == t[n]
    ensures s[..n + 1] == t[..n + 1]
  {
  }

  lemma PaddedCell(src: seq<int>, rows: nat, r: nat, rpad: nat, i: nat, j: nat)
    requires |src| == rows * r && i < rows && j < rpad
    ensures j < r ==> i * r + j < rows * r
    ensures i * rpad + j < |PaddedMatrix(src, rows, r, rpad)|
    ensures PaddedMatrix(src, rows, r, rpad)[i * rpad + j] == if j < r then src[i * r + j] else 0
  {
    DivMod(i, j, rpad);
    RowMajorBound(i, rows, j, rpad);
    if j < r {
      RowMajorBound(i, rows, j, r);
    }
  }

  function UnpaddedMatrix(src: seq<int>, rows: nat, r: nat, rpad: nat): (s: seq<int>)
    ensures |s| == rows * r
  {
    seq(rows * r, d requires 0 <= d < rows * r => if r == 0 then 0 else At(src, (d / r) * rpad + d % r))
  }

  lemma UnpaddedCell(src: seq<int>, rows: nat, r: nat, rpad: nat, i: nat, j: nat)
    requires |src| == rows * rpad && i < rows && j < r <= rpad
    ensures i * rpad + j < rows * rpad && i * r + j < |UnpaddedMatrix(src, rows, r, rpad)|
    ensures UnpaddedMatrix(src, rows, r, rpad)[i * r + j] == src[i * rpad + j]
  {
    DivMod(i, j, r);
    RowMajorBound(i, rows, j, rpad);
    RowMajorBound(i, rows, j, r);
  }

  /** Drops the padding columns again. */
  method Unpad(aligned: array<int>, dst: array<int>, p: nat, r: nat, rpad: nat)
    requires aligned.Length == p * rpad && dst.Length == p * r && r <= rpad && aligned != dst
    modifies dst
    ensures dst[..] == UnpaddedMatrix(aligned[..], p, r, rpad)
  {
    hide UnpaddedMatrix;
    ghost var d, target := 0, UnpaddedMatrix(aligned[..], p, r, rpad);
    var m := 0;
    while m < p
      invariant m <= p && d == m * r <= |target| && dst[..d] == target[..d]
    {
      var n := 0;
      while n < r
        invariant n <= r && d == m * r + n <= |target| && dst[..d] == target[..d]
      {
        UnpaddedCell(aligned[..], p, r, rpad, m, n);
        dst[r * m + n] := aligned[rpad * m + n];
        PrefixStep(dst[..], target, d);
        n, d := n + 1, d + 1;
      }
      m := m + 1;
    }
    assert dst[..] == target;
  }
}
