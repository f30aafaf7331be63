/** Byte buffers cut into slices of equal size, each written from its front. */
module Slices {
  import opened Common

  type Byte = bv8

  function Concat(chunks: seq<seq<Byte>>): seq<Byte> {
    if chunks == [] then [] else chunks[0] + Concat(chunks[1..])
  }

  function Sum(counts: seq<nat>): nat {
    if counts == [] then 0 else counts[0] + Sum(counts[1..])
  }

  function Lengths(chunks: seq<seq<Byte>>): (r: seq<nat>)
    ensures |r| == |chunks| && forall i :: 0 <= i < |r| ==> r[i] == |chunks[i]|
  {
    seq(|chunks|, i requires 0 <= i < |chunks| => |chunks[i]|)
  }

  /** The memory after `d` has been stored at `offset`. */
  function WriteAt(m: seq<Byte>, offset: nat, d: seq<Byte>): (r: seq<Byte>)
    requires offset + |d| <= |m|
    ensures |r| == |m|
  {
    m[..offset] + d + m[offset + |d|..]
  }

  /** Slice `i`; the last one may be cut short by the end of the memory. */
  function Block(m: seq<Byte>, i: nat, size: nat): seq<Byte>
    requires i * size <= |m|
  {
    m[i * size..Min(i * size + size, |m|)]
  }

  lemma OffsetsApart(i: nat, k: nat, size: nat)
    requires i < k
    ensures i * size + size <= k * size
  {
    assert k * size - (i + 1) * size == (k - i - 1) * size >= 0;
  }

  /** Storing into slice `i` replaces the front of that slice and touches no other. */
  lemma BlockAfterWrite(m: seq<Byte>, i: nat, k: nat, size: nat, d: seq<Byte>)
    requires i * size + |d| <= |m| && |d| <= size && k * size <= |m|
    ensures Block(WriteAt(m, i * size, d), k, size)
         == if k == i then d + Block(m, i, size)[|d|..] else Block(m, k, size)
  {
    if k < i {
      OffsetsApart(k, i, size);
    } else if i < k {
      OffsetsApart(i, k, size);
    }
  }

  /** Slice `i` starts with chunk `i`. */
  ghost predicate Holds(m: seq<Byte>, chunks: seq<seq<Byte>>, size: nat) {
    forall i :: 0 <= i < |chunks| ==> i * size <= |m| && chunks[i] <= Block(m, i, size)
  }

  /** Every slice before a non-empty one is full. */
  predicate FullUntilLast(counts: seq<nat>, size: nat) {
    forall i, j :: 0 <= i < j < |counts| && counts[j] > 0 ==> counts[i] == size
  }

  lemma {:induction false} NothingLeft(chunks: seq<seq<Byte>>)
    requires forall i :: 0 <= i < |chunks| ==> chunks[i] == []
    ensures Concat(chunks) == [] && Sum(Lengths(chunks)) == 0
  {
    if chunks != [] {
      LengthsRest(chunks);
      NothingLeft(chunks[1..]);
    }
  }

  lemma LengthsRest(chunks: seq<seq<Byte>>)
    requires chunks != []
    ensures Lengths(chunks)[0] == |chunks[0]| && Lengths(chunks)[1..] == Lengths(chunks[1..])
  {
  }

  lemma {:induction false} ConcatLength(chunks: seq<seq<Byte>>)
    ensures |Concat(chunks)| == Sum(Lengths(chunks))
  {
    if chunks != [] {
      LengthsRest(chunks);
      ConcatLength(chunks[1..]);
    }
  }

  /** If the slices are full until the last, the memory reads like the concatenation. */
  lemma {:induction false} HeldChunksAdjoin(m: seq<Byte>, chunks: seq<seq<Byte>>, size: nat)
    requires Holds(m, chunks, size) && FullUntilLast(Lengths(chunks), size)
    ensures Concat(chunks) <= m
  {
    hide Holds, FullUntilLast;
    if chunks != [] {
      var rest := chunks[1..];
      FirstHeld(m, chunks, size);
      if forall i :: 0 <= i < |rest| ==> rest[i] == [] {
        NothingLeft(rest);
      } else {
        FirstIsFull(chunks, size);
        HeldRest(m, chunks, size);
        HeldChunksAdjoin(m[size..], rest, size);
        PrefixJoin(chunks[0], Concat(rest), m);
      }
    }
  }

  lemma FirstHeld(m: seq<Byte>, chunks: seq<seq<Byte>>, size: nat)
    requires chunks != [] && Holds(m, chunks, size)
    ensures chunks[0] <= m
  {
    assert 0 * size == 0 && chunks[0] <= Block(m, 0, size);
  }

  lemma FirstIsFull(chunks: seq<seq<Byte>>, size: nat)
    requires FullUntilLast(Lengths(chunks), size) && chunks != [] && exists i :: 0 < i < |chunks| && chunks[i] != []
    ensures |chunks[0]| == size
  {
    var i :| 0 < i < |chunks| && chunks[i] != [];
    assert Lengths(chunks)[i] > 0 && Lengths(chunks)[0] == |chunks[0]|;
  }

  lemma PrefixJoin(a: seq<Byte>, b: seq<Byte>, m: seq<Byte>)
    requires a <= m && b <= m[|a|..]
    ensures a + b <= m
  {
    assert m == a + m[|a|..];
  }

  lemma DropThenSlice(m: seq<Byte>, n: nat, a: nat, b: nat)
    requires a <= b && n + b <= |m|
    ensures m[n..][a..b] == m[n + a..n + b]
  {
  }

  lemma HeldRest(m: seq<Byte>, chunks: seq<seq<Byte>>, size: nat)
    requires chunks != [] && Holds(m, chunks, size) && FullUntilLast(Lengths(chunks), size) && size <= |m|
    ensures Holds(m[size..], chunks[1..], size) && FullUntilLast(Lengths(chunks[1..]), size)
  {
    var rest := chunks[1..];
    forall i | 0 <= i < |rest| ensures i * size <= |m[size..]| && rest[i] <= Block(m[size..], i, size) {
      assert (i + 1) * size == i * size + size;
      assert rest[i] == chunks[i + 1] && chunks[i + 1] <= Block(m, i + 1, size);
      DropThenSlice(m, size, i * size, Min(i * size + size, |m| - size));
    }
    LengthsRest(chunks);
    assert forall i :: 0 <= i < |rest| ==> Lengths(rest)[i] == Lengths(chunks)[i + 1];
  }

  // ---- exactly when ---------------------------------------------------------

  /** The first `n` chunks are stored, each at the front of its slice. */
  function Fill(m: seq<Byte>, chunks: seq<seq<Byte>>, size: nat, n: nat): (r: seq<Byte>)
    requires n <= |chunks| && Fits(Lengths(chunks), size) && |m| == |chunks| * size
    ensures |r| == |m|
  {
    if n == 0 then m
    else
      OffsetsWithin(n - 1, |chunks|, size);
      WriteAt(Fill(m, chunks, size, n - 1), (n - 1) * size, chunks[n - 1])
  }

  lemma OffsetsWithin(i: nat, n: nat, size: nat)
    requires i < n
    ensures 0 <= i * size && i * size + size <= n * size
  {
    if i + 1 < n {
      OffsetsApart(i, n - 1, size);
    }
    assert n * size == (n - 1) * size + size;
  }

  predicate Fits(counts: seq<nat>, size: nat) {
    forall i :: 0 <= i < |counts| ==> counts[i] <= size
  }

  lemma {:induction false} FillBlocks(m: seq<Byte>, chunks: seq<seq<Byte>>, size: nat, n: nat, k: nat)
    requires n <= |chunks| && Fits(Lengths(chunks), size) && |m| == |chunks| * size && k < |chunks|
    ensures k * size + size <= |m|
    ensures Block(Fill(m, chunks, size, n), k, size)
         == if k < n then chunks[k] + Block(m, k, size)[|chunks[k]|..] else Block(m, k, size)
  {
    OffsetsWithin(k, |chunks|, size);
    if n > 0 {
      OffsetsWithin(n - 1, |chunks|, size);
      FillBlocks(m, chunks, size, n - 1, k);
      BlockAfterWrite(Fill(m, chunks, size, n - 1), n - 1, k, size, chunks[n - 1]);
    }
  }

  lemma FillHolds(m: seq<Byte>, chunks: seq<seq<Byte>>, size: nat)
    requires Fits(Lengths(chunks), size) && |m| == |chunks| * size
    ensures Holds(Fill(m, chunks, size, |chunks|), chunks, size)
  {
    forall k | 0 <= k < |chunks|
      ensures k * size <= |m| && chunks[k] <= Block(Fill(m, chunks, size, |chunks|), k, size)
    {
      FillBlocks(m, chunks, size, |chunks|, k);
    }
  }

  /** What was asked for: the front of the shared memory is the concatenation. */
  ghost predicate Assembles(m: seq<Byte>, chunks: seq<seq<Byte>>, size: nat) {
    Fits(Lengths(chunks), size) && |m| == |chunks| * size
    ==> Concat(chunks) <= Fill(m, chunks, size, |chunks|)
  }

  function Ones(counts: seq<nat>): (r: seq<seq<Byte>>)
    ensures Lengths(r) == counts
    ensures forall i, j :: 0 <= i < |r| && 0 <= j < |r[i]| ==> r[i][j] == 1
  {
    seq(|counts|, i requires 0 <= i < |counts| => seq(counts[i], _ => 1 as Byte))
  }

  lemma {:induction false} ConcatOfOnes(chunks: seq<seq<Byte>>, p: nat)
    requires forall i, j :: 0 <= i < |chunks| && 0 <= j < |chunks[i]| ==> chunks[i][j] == 1
    requires p < |Concat(chunks)|
    ensures Concat(chunks)[p] == 1
  {
    if p >= |chunks[0]| {
      ConcatOfOnes(chunks[1..], p - |chunks[0]|);
    }
  }

  /** Slices before the first short one are full, so what follows a short slice is counted past its hole. */
  lemma {:induction false} SumPastHole(counts: seq<nat>, size: nat, i: nat, j: nat)
    requires i < j < |counts| && counts[j] > 0
    requires forall k :: 0 <= k < i ==> counts[k] == size
    ensures Sum(counts) > i * size + counts[i]
  {
    var rest := counts[1..];
    if i == 0 {
      SumAtLeast(rest, j - 1);
      assert 0 * size == 0;
    } else {
      SumPastHole(rest, size, i - 1, j - 1);
      assert i * size == (i - 1) * size + size;
    }
  }

  lemma {:induction false} SumAtLeast(counts: seq<nat>, j: nat)
    requires j < |counts|
    ensures Sum(counts) >= counts[j]
  {
    if j > 0 {
      SumAtLeast(counts[1..], j - 1);
    }
  }

  lemma FirstShort(counts: seq<nat>, size: nat) returns (i: nat, j: nat)
    requires !FullUntilLast(counts, size)
    ensures i < j < |counts| && counts[j] > 0 && counts[i] != size
    ensures forall k :: 0 <= k < i ==> counts[k] == size
  {
    var i0: int, j0: int :| 0 <= i0 < j0 < |counts| && counts[j0] > 0 && counts[i0] != size;
    i, j := 0, j0;
    while counts[i] == size
      invariant 0 <= i <= i0 && forall k :: 0 <= k < i ==> counts[k] == size
      decreases i0 - i
    {
      i := i + 1;
    }
  }

  /** The byte behind a short chunk is the one the memory held before. */
  lemma HoleStays(m: seq<Byte>, chunks: seq<seq<Byte>>, size: nat, i: nat)
    requires Fits(Lengths(chunks), size) && |m| == |chunks| * size && i < |chunks| && |chunks[i]| < size
    ensures i * size + |chunks[i]| < |m|
    ensures Fill(m, chunks, size, |chunks|)[i * size + |chunks[i]|] == m[i * size + |chunks[i]|]
  {
    hide Fill, Block;
    var after := Fill(m, chunks, size, |chunks|);
    FillBlocks(m, chunks, size, |chunks|, i);
    BlockAt(after, i, size, |chunks[i]|);
    BlockAt(m, i, size, |chunks[i]|);
    AfterPrefix(chunks[i], Block(m, i, size));
  }

  lemma BlockAt(m: seq<Byte>, i: nat, size: nat, k: nat)
    requires i * size + size <= |m| && k < size
    ensures |Block(m, i, size)| == size && Block(m, i, size)[k] == m[i * size + k]
  {
  }

  lemma AfterPrefix(d: seq<Byte>, block: seq<Byte>)
    requires |d| < |block|
    ensures (d + block[|d|..])[|d|] == block[|d|]
  {
  }

  function Zeros(n: nat): (r: seq<Byte>)
    ensures |r| == n && forall k :: 0 <= k < n ==> r[k] == 0
  {
    seq(n, _ => 0 as Byte)
  }

  /** A short slice with bytes after it leaves a hole: ones written over zeros show it. */
  lemma HoleShows(counts: seq<nat>, size: nat)
    requires Fits(counts, size) && !FullUntilLast(counts, size)
    ensures |counts| * size >= 0
    ensures !Assembles(Zeros(|counts| * size), Ones(counts), size)
  {
    hide Zeros, Ones, Fill, Concat, Sum, FullUntilLast;
    var chunks := Ones(counts);
    assert |counts| * size >= 0 by { NonNegativeProduct(|counts|, size); }
    var m := Zeros(|counts| * size);
    var i, j := FirstShort(counts, size);
    SumPastHole(counts, size, i, j);
    ConcatLength(chunks);
    HoleStays(m, chunks, size, i);
    ConcatOfOnes(chunks, i * size + |chunks[i]|);
  }

  lemma NonNegativeProduct(a: nat, b: nat)
    ensures 0 <= a * b
  {
  }

  /**
   For given slice counts, the shared memory assembles to the concatenation, whatever the bytes and
   whatever the memory held before, iff every slice before a non-empty one is full.
   */
  lemma AssemblyIsExact(counts: seq<nat>, size: nat)
    requires Fits(counts, size)
    ensures (forall m, chunks :: Lengths(chunks) == counts ==> Assembles(m, chunks, size))
            <==> FullUntilLast(counts, size)
  {
    if FullUntilLast(counts, size) {
      forall m, chunks | Lengths(chunks) == counts ensures Assembles(m, chunks, size) {
        if |m| == |chunks| * size {
          FillHolds(m, chunks, size);
          HeldChunksAdjoin(Fill(m, chunks, size, |chunks|), chunks, size);
        }
      }
    } else {
      HoleShows(counts, size);
    }
  }
}
