/**
 Reading and writing whole files: parallel reads into one buffer, the sequential chunked read, and
 the chunked write. How many bytes each call moves is up to the server (sections 3.3.6 and 3.3.7 of
 RFC 1813 allow fewer than were asked for).
 */
module Transfer {
  import opened Common
  import opened ReadBuffers
  import opened Slices

  const CHUNK := 1_048_576
  const MAX_PARALLEL_CHUNK := 4_194_304
  const CONTENTS_BUFFER_THRESHOLD := 67_108_864

  predicate UsesPreallocatedBuffer(fileSize: int) {
    0 < fileSize <= CONTENTS_BUFFER_THRESHOLD
  }

  // ---- the slices of a parallel read ------------------------------------------------

  function ChunkCount(total: nat, size: nat): nat
    requires size > 0
  {
    (total + size - 1) / size
  }

  function ReadCount(total: nat, size: nat, i: nat): int {
    Min(size, total - i * size)
  }

  predicate IsSlice(total: nat, size: nat, i: nat) {
    i * size < total
  }

  lemma DivisionBounds(a: nat, b: nat)
    requires b > 0
    ensures a / b * b <= a < a / b * b + b
  {
  }

  /** The slices the loop issues are those that start inside the file. */
  lemma ChunkCountIsExact(total: nat, size: nat, i: nat)
    requires size > 0
    ensures i < ChunkCount(total, size) <==> IsSlice(total, size, i)
  {
    var n := ChunkCount(total, size);
    DivisionBounds(total + size - 1, size);
    if i < n {
      OffsetsWithin(i, n, size);
    } else if i > n {
      OffsetsApart(n, i, size);
    }
  }

  /** No slice is empty or reaches past the end; each starts where the one before it ends, and the last ends at the
      end. */
  lemma SlicesTile(total: nat, size: nat, i: nat)
    requires size > 0 && i < ChunkCount(total, size)
    ensures 0 < ReadCount(total, size, i) <= size
    ensures i * size + ReadCount(total, size, i) == if i + 1 < ChunkCount(total, size) then (i + 1) * size else total
  {
    ChunkCountIsExact(total, size, i);
    ChunkCountIsExact(total, size, i + 1);
    assert (i + 1) * size == i * size + size;
  }

  /** Every byte of the file lies in exactly one slice. */
  lemma ByteInOneSlice(total: nat, size: nat, p: nat, i: nat)
    requires size > 0 && p < total && i < ChunkCount(total, size)
    ensures p / size < ChunkCount(total, size)
    ensures i * size <= p < i * size + ReadCount(total, size, i) <==> i == p / size
  {
    var k := p / size;
    DivisionBounds(p, size);
    ChunkCountIsExact(total, size, k);
    if i < k {
      OffsetsApart(i, k, size);
    } else if k < i {
      OffsetsApart(k, i, size);
    }
  }

  // ---- parallel reads ---------------------------------------------------------------

  /** One `pread` has finished: the bytes it stored, or its error. */
  datatype Arrival = Arrival(index: nat, result: Result<seq<Byte>>)

  /** Every slice's read finishes at most once, in any order, with at most the bytes asked for. */
  ghost predicate Arrivals(arrivals: seq<Arrival>, total: nat, size: nat) {
    && (forall k :: 0 <= k < |arrivals| ==> Within(arrivals[k], total, size))
    && (forall i, j :: 0 <= i < j < |arrivals| ==> arrivals[i].index != arrivals[j].index)
  }

  predicate Within(a: Arrival, total: nat, size: nat) {
    IsSlice(total, size, a.index) && (a.result.Ok? ==> |a.result.value| <= ReadCount(total, size, a.index))
  }

  ghost predicate HasArrival(arrivals: seq<Arrival>, i: nat) {
    exists k :: 0 <= k < |arrivals| && arrivals[k].index == i
  }

  ghost predicate AllArrive(arrivals: seq<Arrival>, total: nat, size: nat) {
    forall i: nat :: IsSlice(total, size, i) ==> HasArrival(arrivals, i)
  }

  /** The errors of the reads that finish from position `k` on, in order. */
  function Errors(arrivals: seq<Arrival>, k: nat): seq<PosixError>
    requires k <= |arrivals|
    decreases |arrivals| - k
  {
    if k == |arrivals| then []
    else (if arrivals[k].result.Err? then [arrivals[k].result.error] else []) + Errors(arrivals, k + 1)
  }

  /** Draining the group swallows the first error; a second one is thrown in place of the cancellation. */
  function AfterRefusal(arrivals: seq<Arrival>, k: nat): PosixError
    requires k <= |arrivals|
  {
    var errors := Errors(arrivals, k);
    if |errors| >= 2 then errors[1] else ECANCELED
  }

  /** Why the read stops, if it does: the first error, or the first refusal of the progress handler. */
  function Stopped(arrivals: seq<Arrival>, k: nat, progress: nat -> bool): Option<PosixError>
    requires k <= |arrivals|
    decreases |arrivals| - k
  {
    if k == |arrivals| then None
    else if arrivals[k].result.Err? then Some(arrivals[k].result.error)
    else if !progress(k) then Some(AfterRefusal(arrivals, k + 1))
    else Stopped(arrivals, k + 1, progress)
  }

  lemma {:induction false} StoppedIff(arrivals: seq<Arrival>, k: nat, progress: nat -> bool)
    requires k <= |arrivals|
    ensures Stopped(arrivals, k, progress) == None
       <==> forall j :: k <= j < |arrivals| ==> arrivals[j].result.Ok? && progress(j)
    decreases |arrivals| - k
  {
    if k < |arrivals| {
      StoppedIff(arrivals, k + 1, progress);
    }
  }

  lemma {:induction false} ErrorsFrom(arrivals: seq<Arrival>, k: nat, a: nat)
    requires k <= a <= |arrivals| && forall j :: k <= j < a ==> arrivals[j].result.Ok?
    ensures Errors(arrivals, k) == Errors(arrivals, a)
    decreases a - k
  {
    if k < a {
      ErrorsFrom(arrivals, k + 1, a);
    }
  }

  /** `a` is the first position from `k` on at which a read failed; without one it is past the end. */
  ghost predicate FirstFailure(arrivals: seq<Arrival>, k: nat, a: nat) {
    && (forall j :: k <= j < a && j < |arrivals| ==> arrivals[j].result.Ok?)
    && (a < |arrivals| ==> k <= a && arrivals[a].result.Err?)
  }

  lemma ErrorsUntil(arrivals: seq<Arrival>, k: nat, a: nat)
    requires k <= |arrivals| && FirstFailure(arrivals, k, a)
    ensures Errors(arrivals, k)
         == if a < |arrivals| then [arrivals[a].result.error] + Errors(arrivals, a + 1) else []
  {
    ErrorsFrom(arrivals, k, if a < |arrivals| then a else |arrivals|);
  }

  lemma {:induction false} StoppedFrom(arrivals: seq<Arrival>, progress: nat -> bool, i: nat, k: nat)
    requires i <= k <= |arrivals| && forall j :: i <= j < k ==> arrivals[j].result.Ok? && progress(j)
    ensures Stopped(arrivals, i, progress) == Stopped(arrivals, k, progress)
    decreases k - i
  {
    if i < k {
      StoppedFrom(arrivals, progress, i + 1, k);
    }
  }

  /** What ends the group is decided by the first read that fails or is refused. A failure is thrown as it is. After a
      refusal the second failure among the rest is thrown if there are two, and else the cancellation. */
  lemma StoppedWith(arrivals: seq<Arrival>, progress: nat -> bool, k: nat, a: nat, b: nat)
    requires k < |arrivals| && forall j :: 0 <= j < k ==> arrivals[j].result.Ok? && progress(j)
    requires FirstFailure(arrivals, k + 1, a) && FirstFailure(arrivals, a + 1, b)
    ensures arrivals[k].result.Err? ==> Stopped(arrivals, 0, progress) == Some(arrivals[k].result.error)
    ensures arrivals[k].result.Ok? && !progress(k) ==>
              Stopped(arrivals, 0, progress)
              == Some(if a < |arrivals| && b < |arrivals| then arrivals[b].result.error else ECANCELED)
  {
    StoppedFrom(arrivals, progress, 0, k);
    ErrorsUntil(arrivals, k + 1, a);
    if a < |arrivals| {
      ErrorsUntil(arrivals, a + 1, b);
    }
  }

  /** The memory after the first `k` reads have stored their bytes. */
  function Arrived(m: seq<Byte>, arrivals: seq<Arrival>, size: nat, k: nat): (r: seq<Byte>)
    requires k <= |arrivals|
    requires forall j :: 0 <= j < k ==> Within(arrivals[j], |m|, size) && arrivals[j].result.Ok?
    ensures |r| == |m|
  {
    if k == 0 then m
    else
      var a := arrivals[k - 1];
      var before := Arrived(m, arrivals, size, k - 1);
      StaysInside(a, |m|, size);
      WriteAt(before, a.index * size, a.result.value)
  }

  lemma StaysInside(a: Arrival, total: nat, size: nat)
    requires Within(a, total, size) && a.result.Ok?
    ensures 0 <= a.index * size <= total && a.index * size + |a.result.value| <= total && |a.result.value| <= size
  {
  }

  lemma ArrivedNone(m: seq<Byte>, arrivals: seq<Arrival>, size: nat)
    ensures Arrived(m, arrivals, size, 0) == m
  {
  }

  lemma ArrivedNext(m: seq<Byte>, arrivals: seq<Arrival>, size: nat, k: nat)
    requires k < |arrivals|
    requires forall j :: 0 <= j <= k ==> Within(arrivals[j], |m|, size) && arrivals[j].result.Ok?
    ensures var a := arrivals[k];
            && 0 <= a.index * size && a.index * size + |a.result.value| <= |m|
            && Arrived(m, arrivals, size, k + 1)
                == WriteAt(Arrived(m, arrivals, size, k), a.index * size, a.result.value)
  {
    StaysInside(arrivals[k], |m|, size);
  }

  predicate Succeeds(arrivals: seq<Arrival>) {
    forall k :: 0 <= k < |arrivals| ==> arrivals[k].result.Ok?
  }

  /** A slice no read has come back for is as it was. */
  lemma {:induction false} UntouchedBlock(m: seq<Byte>, arrivals: seq<Arrival>, size: nat, k: nat, i: nat)
    requires Arrivals(arrivals, |m|, size) && Succeeds(arrivals) && k <= |arrivals|
    requires IsSlice(|m|, size, i) && forall j :: 0 <= j < k ==> arrivals[j].index != i
    ensures Block(Arrived(m, arrivals, size, k), i, size) == Block(m, i, size)
  {
    if k > 0 {
      UntouchedBlock(m, arrivals, size, k - 1, i);
      var a := arrivals[k - 1];
      BlockAfterWrite(Arrived(m, arrivals, size, k - 1), a.index, i, size, a.result.value);
    }
  }

  /** Whatever the order, each slice ends up with its own bytes at the front and the old ones behind them. */
  lemma {:induction false} ArrivedBlock(m: seq<Byte>, arrivals: seq<Arrival>, size: nat, k: nat, j: nat)
    requires Arrivals(arrivals, |m|, size) && Succeeds(arrivals) && j < k <= |arrivals|
    ensures var a := arrivals[j];
            && |a.result.value| <= |Block(m, a.index, size)|
            && Block(Arrived(m, arrivals, size, k), a.index, size)
               == a.result.value + Block(m, a.index, size)[|a.result.value|..]
  {
    hide Block;
    var a, last := arrivals[j], arrivals[k - 1];
    StaysInside(last, |m|, size);
    StaysInside(a, |m|, size);
    BlockLength(m, size, a.index);
    BlockAfterWrite(Arrived(m, arrivals, size, k - 1), last.index, a.index, size, last.result.value);
    if j < k - 1 {
      ArrivedBlock(m, arrivals, size, k - 1, j);
    } else {
      UntouchedBlock(m, arrivals, size, k - 1, a.index);
    }
  }

  lemma SliceOf(p: nat, size: nat) returns (i: nat)
    requires size > 0
    ensures i * size <= p < i * size + size
  {
    i := p / size;
    DivisionBounds(p, size);
  }

  lemma ByteOfBlock(m: seq<Byte>, i: nat, size: nat, p: nat)
    requires i * size <= p < i * size + size && p < |m|
    ensures p - i * size < |Block(m, i, size)| && Block(m, i, size)[p - i * size] == m[p]
  {
  }

  /** Equal slices make equal memories. */
  lemma BlocksDetermine(m: seq<Byte>, m': seq<Byte>, size: nat)
    requires size > 0 && |m| == |m'|
    requires forall i: nat :: IsSlice(|m|, size, i) ==> Block(m, i, size) == Block(m', i, size)
    ensures m == m'
  {
    hide Block;
    forall p | 0 <= p < |m| ensures m[p] == m'[p] {
      var i := SliceOf(p, size);
      ByteOfBlock(m, i, size, p);
      ByteOfBlock(m', i, size, p);
      assert IsSlice(|m|, size, i);
    }
  }

  /** The server answers with the file's own bytes. */
  ghost predicate Faithful(arrivals: seq<Arrival>, file: seq<Byte>, size: nat)
    requires Arrivals(arrivals, |file|, size)
  {
    forall k :: 0 <= k < |arrivals| && arrivals[k].result.Ok? ==>
      arrivals[k].result.value <= Block(file, arrivals[k].index, size)
  }

  predicate Full(a: Arrival, total: nat, size: nat) {
    a.result.Ok? && |a.result.value| == ReadCount(total, size, a.index)
  }

  ghost predicate AllFull(arrivals: seq<Arrival>, total: nat, size: nat) {
    forall k :: 0 <= k < |arrivals| ==> Full(arrivals[k], total, size)
  }

  lemma BlockLength(m: seq<Byte>, size: nat, i: nat)
    requires IsSlice(|m|, size, i)
    ensures |Block(m, i, size)| == ReadCount(|m|, size, i)
  {
  }

  lemma FullBlock(file: seq<Byte>, m: seq<Byte>, arrivals: seq<Arrival>, size: nat, k: nat)
    requires |m| == |file| && Arrivals(arrivals, |file|, size) && k < |arrivals|
    requires Succeeds(arrivals) && Faithful(arrivals, file, size) && AllFull(arrivals, |file|, size)
    ensures var i := arrivals[k].index; Block(Arrived(m, arrivals, size, |arrivals|), i, size) == Block(file, i, size)
  {
    hide Block, Arrived;
    var a := arrivals[k];
    ArrivedBlock(m, arrivals, size, |arrivals|, k);
    BlockLength(m, size, a.index);
    BlockLength(file, size, a.index);
    assert Full(a, |file|, size);
  }

  lemma FullReadsGiveFile(file: seq<Byte>, m: seq<Byte>, arrivals: seq<Arrival>, size: nat)
    requires size > 0 && |m| == |file| && Arrivals(arrivals, |file|, size) && AllArrive(arrivals, |file|, size)
    requires Succeeds(arrivals) && Faithful(arrivals, file, size) && AllFull(arrivals, |file|, size)
    ensures Arrived(m, arrivals, size, |arrivals|) == file
  {
    hide Block, Faithful, AllFull;
    var r := Arrived(m, arrivals, size, |arrivals|);
    forall i: nat | IsSlice(|r|, size, i) ensures Block(r, i, size) == Block(file, i, size) {
      assert HasArrival(arrivals, i);
      var k :| 0 <= k < |arrivals| && arrivals[k].index == i;
      FullBlock(file, m, arrivals, size, k);
    }
    BlocksDetermine(r, file, size);
  }

  /** A memory that disagrees with the file everywhere. */
  function Garbage(file: seq<Byte>): (r: seq<Byte>)
    ensures |r| == |file| && forall p :: 0 <= p < |r| ==> r[p] != file[p]
  {
    seq(|file|, p requires 0 <= p < |file| => if file[p] == 0 then 1 else 0)
  }

  lemma ShortReadShows(file: seq<Byte>, arrivals: seq<Arrival>, size: nat, k: nat)
    requires Arrivals(arrivals, |file|, size) && Succeeds(arrivals)
    requires k < |arrivals| && !Full(arrivals[k], |file|, size)
    ensures Arrived(Garbage(file), arrivals, size, |arrivals|) != file
  {
    hide Garbage, Arrived;
    var m, a := Garbage(file), arrivals[k];
    var r := Arrived(m, arrivals, size, |arrivals|);
    var d := |a.result.value|;
    ArrivedBlock(m, arrivals, size, |arrivals|, k);
    BlockLength(m, size, a.index);
    BlockLength(file, size, a.index);
    AfterPrefix(a.result.value, Block(m, a.index, size));
    assert Block(r, a.index, size)[d] == Block(m, a.index, size)[d] == m[a.index * size + d];
    assert Block(file, a.index, size)[d] == file[a.index * size + d];
  }

  /**
   The result is always as long as the file. It is the file, whatever the fresh buffer held and in whatever order the
   reads finished, iff no read was short.
   */
  lemma ParallelReadExact(file: seq<Byte>, arrivals: seq<Arrival>, size: nat)
    requires size > 0 && Arrivals(arrivals, |file|, size) && AllArrive(arrivals, |file|, size)
    requires Succeeds(arrivals) && Faithful(arrivals, file, size)
    ensures (forall m :: |m| == |file| ==> Arrived(m, arrivals, size, |arrivals|) == file)
       <==> AllFull(arrivals, |file|, size)
  {
    hide Arrived, AllArrive, Faithful, Full;
    if AllFull(arrivals, |file|, size) {
      forall m | |m| == |file| ensures Arrived(m, arrivals, size, |arrivals|) == file {
        FullReadsGiveFile(file, m, arrivals, size);
      }
    } else {
      var k :| 0 <= k < |arrivals| && !Full(arrivals[k], |file|, size);
      ShortReadShows(file, arrivals, size, k);
      assert |Garbage(file)| == |file|;
    }
  }

  /** A refusal followed by two failing reads reports the second failure, not the cancellation. */
  lemma SecondFailureIsThrown(a: Arrival, e: PosixError, e': PosixError, progress: nat -> bool)
    requires a.result.Ok? && !progress(0)
    ensures Stopped([a, Arrival(1, Err(e)), Arrival(2, Err(e'))], 0, progress) == Some(e')
  {
    var arrivals := [a, Arrival(1, Err(e)), Arrival(2, Err(e'))];
    assert Errors(arrivals, 3) == [];
    assert Errors(arrivals, 2) == [e'];
    assert Errors(arrivals, 1) == [e, e'];
  }

  // ---- the memory the reads go to -----------------------------------------------------

  /** libnfs answers, with bytes, a read that had timed out; `ended` reads of the group had ended by then. */
  datatype LateAnswer = LateAnswer(index: nat, data: seq<Byte>, ended: nat)

  ghost predicate TimedOutBefore(arrivals: seq<Arrival>, index: nat, ended: nat) {
    exists k :: 0 <= k < ended && k < |arrivals| && arrivals[k] == Arrival(index, Err(ETIMEDOUT))
  }

  /** Only a read that has timed out is answered after its end. */
  ghost predicate LateAnswers(late: seq<LateAnswer>, arrivals: seq<Arrival>, total: nat, size: nat) {
    forall j :: 0 <= j < |late| ==>
      && late[j].ended <= |arrivals| && TimedOutBefore(arrivals, late[j].index, late[j].ended)
      && Within(Arrival(late[j].index, Ok(late[j].data)), total, size)
  }

  /** How many late answers arrive when exactly, or at most, so many reads have ended. */
  function LateAt(late: seq<LateAnswer>, ended: nat): nat {
    if late == [] then 0 else (if late[0].ended == ended then 1 else 0) + LateAt(late[1..], ended)
  }

  function LateUpTo(late: seq<LateAnswer>, ended: nat): nat {
    if late == [] then 0 else (if late[0].ended <= ended then 1 else 0) + LateUpTo(late[1..], ended)
  }

  /** How many of those that arrive then bring bytes. */
  function BytesAt(late: seq<LateAnswer>, ended: nat): nat {
    if late == [] then 0
    else (if late[0].ended == ended && late[0].data != [] then 1 else 0) + BytesAt(late[1..], ended)
  }

  function Successes(arrivals: seq<Arrival>, k: nat): nat
    requires k <= |arrivals|
  {
    if k == 0 then 0 else Successes(arrivals, k - 1) + if arrivals[k - 1].result.Ok? then 1 else 0
  }

  lemma {:induction false} LateStep(late: seq<LateAnswer>, ended: nat)
    ensures LateUpTo(late, ended + 1) == LateUpTo(late, ended) + LateAt(late, ended + 1)
  {
    if late != [] {
      LateStep(late[1..], ended);
    }
  }

  lemma {:induction false} LateEnds(late: seq<LateAnswer>, ended: nat)
    requires forall j :: 0 <= j < |late| ==> 0 < late[j].ended <= ended
    ensures LateUpTo(late, ended) == |late| && LateUpTo(late, 0) == 0
  {
    if late != [] {
      LateEnds(late[1..], ended);
    }
  }

  lemma {:induction false} BytesAtIff(late: seq<LateAnswer>, ended: nat)
    ensures BytesAt(late, ended) > 0
       <==> exists j :: 0 <= j < |late| && late[j].ended == ended && late[j].data != []
  {
    if late != [] {
      BytesAtIff(late[1..], ended);
      assert forall j :: 1 <= j < |late| ==> late[j] == late[1..][j - 1];
    }
  }

  lemma {:induction false} NoneLateAt(late: seq<LateAnswer>, ended: nat)
    requires forall j :: 0 <= j < |late| ==> late[j].ended != ended
    ensures LateAt(late, ended) == 0 && BytesAt(late, ended) == 0
  {
    if late != [] {
      NoneLateAt(late[1..], ended);
    }
  }

  /** As long as every read succeeds there is no late answer. */
  lemma NothingLate(late: seq<LateAnswer>, arrivals: seq<Arrival>, total: nat, size: nat, k: nat)
    requires LateAnswers(late, arrivals, total, size) && k <= |arrivals|
    requires forall j :: 0 <= j < k ==> arrivals[j].result.Ok?
    ensures forall j :: 0 <= j < |late| ==> late[j].ended > k
  {
  }

  /** One read of one byte that times out and is answered after all: libnfs stores the byte into freed memory. */
  lemma AnswerAfterTheEnd(b: Byte)
    ensures var arrivals, late := [Arrival(0, Err(ETIMEDOUT))], [LateAnswer(0, [b], 1)];
            && Arrivals(arrivals, 1, 1) && AllArrive(arrivals, 1, 1) && LateAnswers(late, arrivals, 1, 1)
            && BytesAt(late, |arrivals|) == 1
  {
    var arrivals := [Arrival(0, Err(ETIMEDOUT))];
    assert arrivals[0] == Arrival(0, Err(ETIMEDOUT));
    assert TimedOutBefore(arrivals, 0, 1);
    forall i: nat | IsSlice(1, 1, i) ensures HasArrival(arrivals, i) {
      assert arrivals[0].index == i;
    }
  }

  /** The late answers that arrive when `ended` reads have ended. */
  method DeliverLate(buffer: ReadBuffer, chunkSize: nat, late: seq<LateAnswer>, ended: nat)
    requires buffer.Valid()
    requires forall j :: 0 <= j < |late| ==> Within(Arrival(late[j].index, Ok(late[j].data)), buffer.size, chunkSize)
    modifies buffer.pointer, buffer`stores, buffer`strayStores
    ensures buffer.stores == old(buffer.stores) + LateAt(late, ended)
    ensures buffer.strayStores
         == old(buffer.strayStores) + if buffer.deallocations > 0 then BytesAt(late, ended) else 0
    ensures (forall j :: 0 <= j < |late| ==> late[j].ended != ended) ==> buffer.pointer[..] == old(buffer.pointer[..])
  {
    hide Within, WriteAt;
    var i := 0;
    while i < |late|
      invariant 0 <= i <= |late|
      invariant buffer.stores + LateAt(late[i..], ended) == old(buffer.stores) + LateAt(late, ended)
      invariant buffer.deallocations > 0 ==>
                  buffer.strayStores + BytesAt(late[i..], ended) == old(buffer.strayStores) + BytesAt(late, ended)
      invariant buffer.deallocations == 0 ==> buffer.strayStores == old(buffer.strayStores)
      invariant (forall j :: 0 <= j < |late| ==> late[j].ended != ended) ==>
                  buffer.pointer[..] == old(buffer.pointer[..])
    {
      assert late[i..][0] == late[i] && late[i..][1..] == late[i + 1..];
      if late[i].ended == ended {
        StaysInside(Arrival(late[i].index, Ok(late[i].data)), buffer.size, chunkSize);
        buffer.Store(late[i].index * chunkSize, late[i].data);
      }
      i := i + 1;
    }
    assert late[|late|..] == [];
  }

  /** The circumstances of one parallel read; `k` of its reads have ended so far, none of them has stored too late. */
  ghost predicate Reading(buffer: ReadBuffer, chunkSize: nat, arrivals: seq<Arrival>, late: seq<LateAnswer>, k: nat)
    reads buffer
  {
    && buffer.Valid() && buffer.deallocations == 0 && buffer.strayStores == 0
    && Arrivals(arrivals, buffer.size, chunkSize) && LateAnswers(late, arrivals, buffer.size, chunkSize)
    && k <= |arrivals|
    && buffer.stores == Successes(arrivals, k) + LateUpTo(late, if 0 < k == |arrivals| then k - 1 else k)
  }

  /** Read `k` of the group ends: its bytes are stored if it succeeded, and late answers follow unless it was the
      last. */
  method ReadEnds(buffer: ReadBuffer, chunkSize: nat, arrivals: seq<Arrival>, late: seq<LateAnswer>, k: nat)
    requires k < |arrivals| && Reading(buffer, chunkSize, arrivals, late, k)
    modifies buffer.pointer, buffer`stores, buffer`strayStores
    ensures Reading(buffer, chunkSize, arrivals, late, k + 1)
    ensures (forall j :: 0 <= j <= k ==> arrivals[j].result.Ok?) ==>
              var a := arrivals[k];
              && 0 <= a.index * chunkSize && a.index * chunkSize + |a.result.value| <= buffer.size
              && buffer.pointer[..] == WriteAt(old(buffer.pointer[..]), a.index * chunkSize, a.result.value)
  {
    hide Within, WriteAt, TimedOutBefore;
    var a := arrivals[k];
    if a.result.Ok? {
      StaysInside(a, buffer.size, chunkSize);
      buffer.Store(a.index * chunkSize, a.result.value);
    }
    if forall j :: 0 <= j <= k ==> arrivals[j].result.Ok? {
      NothingLate(late, arrivals, buffer.size, chunkSize, k + 1);
    }
    LateStep(late, k);
    if k + 1 < |arrivals| {
      DeliverLate(buffer, chunkSize, late, k + 1);
    }
  }

  /** The inner loop after a refusal: reads are awaited until one fails, and that failure is swallowed. */
  method Drain(buffer: ReadBuffer, chunkSize: nat, arrivals: seq<Arrival>, late: seq<LateAnswer>, from: nat)
    returns (k: nat)
    requires Reading(buffer, chunkSize, arrivals, late, from)
    modifies buffer.pointer, buffer`stores, buffer`strayStores
    ensures from <= k && Reading(buffer, chunkSize, arrivals, late, k)
    ensures AfterRefusal(arrivals, from) == if Errors(arrivals, k) == [] then ECANCELED else Errors(arrivals, k)[0]
  {
    hide Arrivals, LateAnswers;
    k := from;
    while k < |arrivals|
      invariant from <= k && Reading(buffer, chunkSize, arrivals, late, k)
      invariant Errors(arrivals, from) == Errors(arrivals, k)
      decreases |arrivals| - k
    {
      ReadEnds(buffer, chunkSize, arrivals, late, k);
      k := k + 1;
      if arrivals[k - 1].result.Err? {
        return;
      }
    }
  }

  /** The group waits for every read before it ends. */
  method AwaitRest(buffer: ReadBuffer, chunkSize: nat, arrivals: seq<Arrival>, late: seq<LateAnswer>, from: nat)
    requires Reading(buffer, chunkSize, arrivals, late, from)
    modifies buffer.pointer, buffer`stores, buffer`strayStores
    ensures Reading(buffer, chunkSize, arrivals, late, |arrivals|)
  {
    hide Arrivals, LateAnswers;
    for k := from to |arrivals|
      invariant Reading(buffer, chunkSize, arrivals, late, k)
    {
      ReadEnds(buffer, chunkSize, arrivals, late, k);
    }
  }

  /** The body of the group: results are taken as they come until one is thrown. */
  method CollectReads(buffer: ReadBuffer, chunkSize: nat, arrivals: seq<Arrival>, late: seq<LateAnswer>,
                      progress: nat -> bool)
    returns (error: Option<PosixError>)
    requires Reading(buffer, chunkSize, arrivals, late, 0)
    modifies buffer.pointer, buffer`stores, buffer`strayStores
    ensures Reading(buffer, chunkSize, arrivals, late, |arrivals|)
    ensures error == Stopped(arrivals, 0, progress)
    ensures error.None? ==>
              && Succeeds(arrivals)
              && buffer.pointer[..] == Arrived(old(buffer.pointer[..]), arrivals, chunkSize, |arrivals|)
  {
    hide Arrived, WriteAt, Within, AfterRefusal, LateAnswers, Successes, LateUpTo;
    ghost var before := buffer.pointer[..];
    var k, cancelledByProgress := 0, false;
    ArrivedNone(before, arrivals, chunkSize);
    while k < |arrivals|
      invariant Reading(buffer, chunkSize, arrivals, late, k)
      invariant !cancelledByProgress ==>
                  && (forall j :: 0 <= j < k ==> arrivals[j].result.Ok?)
                  && buffer.pointer[..] == Arrived(before, arrivals, chunkSize, k)
                  && Stopped(arrivals, 0, progress) == Stopped(arrivals, k, progress)
      invariant cancelledByProgress ==>
                  Stopped(arrivals, 0, progress)
                  == Some(if Errors(arrivals, k) == [] then ECANCELED else Errors(arrivals, k)[0])
      decreases |arrivals| - k
    {
      var a := arrivals[k];
      if !cancelledByProgress && a.result.Ok? {
        ArrivedNext(before, arrivals, chunkSize, k);
      }
      ReadEnds(buffer, chunkSize, arrivals, late, k);
      k := k + 1;
      if a.result.Err? {
        AwaitRest(buffer, chunkSize, arrivals, late, k);
        return Some(a.result.error);
      }
      if !cancelledByProgress && !progress(k - 1) {
        cancelledByProgress := true;
        k := Drain(buffer, chunkSize, arrivals, late, k);
      }
    }
    error := if cancelledByProgress then Some(ECANCELED) else None;
  }

  /**
   `before` is what the fresh buffer happened to hold; `late` are the answers to reads that had timed out. All reads
   have ended, and stored what they store, before the buffer is freed, and it is freed once: by the caller's `Data` on
   success, by its own deinit otherwise. But a read that has timed out can be answered after that: libnfs stores into
   freed memory iff such an answer brings bytes when all reads of the group have ended.
   */
  method ReadPreallocated(totalBytes: nat, chunkSize: nat, arrivals: seq<Arrival>, late: seq<LateAnswer>,
                          progress: nat -> bool)
    returns (result: Result<seq<Byte>>, buffer: ReadBuffer, ghost before: seq<Byte>)
    requires chunkSize > 0 && Arrivals(arrivals, totalBytes, chunkSize) && AllArrive(arrivals, totalBytes, chunkSize)
    requires LateAnswers(late, arrivals, totalBytes, chunkSize)
    ensures |before| == totalBytes && fresh(buffer)
    ensures result.Err? <==> Stopped(arrivals, 0, progress).Some?
    ensures result.Err? ==> result.error == Stopped(arrivals, 0, progress).value
    ensures result.Ok? ==> Succeeds(arrivals) && result.value == Arrived(before, arrivals, chunkSize, |arrivals|)
    ensures if result.Ok? then buffer.wrappers == 1 && buffer.deallocations == 0
            else buffer.wrappers == 0 && buffer.deallocations == 1
    ensures buffer.stores == Successes(arrivals, |arrivals|) + |late| && (result.Ok? ==> late == [])
    ensures buffer.strayStores == BytesAt(late, |arrivals|)
    ensures buffer.strayStores > 0
       <==> exists j :: 0 <= j < |late| && late[j].ended == |arrivals| && late[j].data != []
  {
    hide Arrived, Stopped, Within;
    buffer := new ReadBuffer(totalBytes);
    before := buffer.pointer[..];
    NothingLate(late, arrivals, totalBytes, chunkSize, 0);
    LateEnds(late, |arrivals|);
    assert |arrivals| == 0 ==> late == [];
    var error := CollectReads(buffer, chunkSize, arrivals, late, progress);
    if error.Some? {
      result := Err(error.value);
    } else {
      NothingLate(late, arrivals, totalBytes, chunkSize, |arrivals|);
      assert late == [];
      buffer.Disown();
      var data := buffer.Wrap(totalBytes);
      assert data == buffer.pointer[..];
      result := Ok(data);
    }
    buffer.Deinit();
    if |arrivals| > 0 {
      LateStep(late, |arrivals| - 1);
      DeliverLate(buffer, chunkSize, late, |arrivals|);
    }
    BytesAtIff(late, |arrivals|);
  }

  // ---- the server's side of an open file ----------------------------------------------

  /** What the server does with one call: it moves up to `n` bytes, or fails. */
  datatype CallReply = Moves(n: nat) | Fails(error: PosixError)

  /** The bytes one read of `count` bytes yields when `rest` lies ahead. */
  function Yield(rest: seq<Byte>, count: nat, n: nat): seq<Byte> {
    rest[..Min(n, Min(count, |rest|))]
  }

  class FileHandle {
    const script: nat -> CallReply
    var contents: seq<Byte>
    var position: nat
    var nextCall: nat

    ghost predicate Valid()
      reads this
    {
      position <= |contents|
    }

    /** Opening for reading, or creating and truncating. */
    constructor (existing: seq<Byte>, truncate: bool, script: nat -> CallReply)
      ensures Valid() && position == 0 && nextCall == 0 && this.script == script
      ensures contents == if truncate then [] else existing
    {
      this.script := script;
      contents := if truncate then [] else existing;
      position, nextCall := 0, 0;
    }

    method Read(count: nat) returns (r: Result<seq<Byte>>)
      requires Valid()
      modifies this`position, this`nextCall
      ensures Valid() && nextCall == old(nextCall) + 1
      ensures var reply := script(old(nextCall));
              match reply
              case Fails(e) => r == Err(e) && position == old(position)
              case Moves(n) =>
                && r == Ok(Yield(contents[old(position)..], count, n))
                && position == old(position) + |r.value|
    {
      match script(nextCall) {
        case Fails(e) => r := Err(e);
        case Moves(n) =>
          var chunk := Yield(contents[position..], count, n);
          position := position + |chunk|;
          r := Ok(chunk);
      }
      nextCall := nextCall + 1;
    }

    /** Bytes are written at the position, over whatever was there; the count is returned. */
    method Write(data: seq<Byte>) returns (r: Result<nat>)
      requires Valid()
      modifies this`contents, this`position, this`nextCall
      ensures Valid() && nextCall == old(nextCall) + 1
      ensures match script(old(nextCall))
              case Fails(e) => r == Err(e) && position == old(position) && contents == old(contents)
              case Moves(n) =>
                && r == Ok(Min(n, |data|)) && position == old(position) + r.value
                && contents[..position] == old(contents)[..old(position)] + data[..r.value]
                && contents[position..] == old(contents)[Min(position, |old(contents)|)..]
                && (old(position) == |old(contents)| ==>
                    position == |contents| && contents == old(contents) + data[..r.value])
    {
      match script(nextCall) {
        case Fails(e) => r := Err(e);
        case Moves(n) =>
          var written := Min(n, |data|);
          contents := contents[..position] + data[..written] + contents[Min(position + written, |contents|)..];
          position := position + written;
          r := Ok(written);
      }
      nextCall := nextCall + 1;
    }
  }

  // ---- the sequential read --------------------------------------------------------------

  /** Reading `left` bytes from `rest`, beginning with call `k`. */
  function SequentialRead(rest: seq<Byte>, left: nat, k: nat, script: nat -> CallReply,
                          progress: nat -> bool): Result<seq<Byte>>
    decreases left
  {
    if left == 0 then Ok([])
    else
      match script(k)
      case Fails(e) => Err(e)
      case Moves(n) =>
        var chunk := Yield(rest, Min(CHUNK, left), n);
        if chunk == [] then Ok([])
        else if !progress(k) then Err(ECANCELED)
        else Prepend(chunk, SequentialRead(rest[|chunk|..], left - |chunk|, k + 1, script, progress))
  }

  function Prepend(chunk: seq<Byte>, r: Result<seq<Byte>>): Result<seq<Byte>> {
    if r.Ok? then Ok(chunk + r.value) else r
  }

  /** From call `k` on the server neither fails nor returns nothing, and the progress handler never refuses. */
  ghost predicate Serves(k: nat, script: nat -> CallReply, progress: nat -> bool) {
    forall j :: j >= k ==> script(j).Moves? && script(j).n > 0 && progress(j)
  }

  /** Whatever the server does, a result is a prefix of the file; it is all of it unless some call returned nothing. */
  lemma {:induction false} SequentialReadIsPrefix(rest: seq<Byte>, k: nat, script: nat -> CallReply,
                                                  progress: nat -> bool)
    ensures var r := SequentialRead(rest, |rest|, k, script, progress);
            r.Ok? ==> r.value <= rest && (r.value == rest || exists j :: j >= k && script(j) == Moves(0))
    decreases |rest|
  {
    if rest != [] && script(k).Moves? {
      var chunk := Yield(rest, Min(CHUNK, |rest|), script(k).n);
      if chunk == [] {
        assert script(k) == Moves(0);
      } else {
        SequentialReadIsPrefix(rest[|chunk|..], k + 1, script, progress);
        assert rest == chunk + rest[|chunk|..];
      }
    }
  }

  /** Short but non-empty reads do no harm. */
  lemma {:induction false} SequentialReadGivesFile(file: seq<Byte>, k: nat, script: nat -> CallReply,
                                                   progress: nat -> bool)
    requires Serves(k, script, progress)
    ensures SequentialRead(file, |file|, k, script, progress) == Ok(file)
    decreases |file|
  {
    if file != [] {
      var chunk := Yield(file, Min(CHUNK, |file|), script(k).n);
      SequentialReadGivesFile(file[|chunk|..], k + 1, script, progress);
      assert file == chunk + file[|chunk|..];
    }
  }

  /** How many bytes one call moves when `at` have been read: no more than a chunk of 1 MB, than are wanted, and than
      there are. */
  function Moved(size: nat, wanted: nat, at: nat, reply: CallReply): nat {
    match reply
    case Fails(_) => 0
    case Moves(n) => Max(0, Min(n, Min(1_048_576, Min(wanted - at, size - at))))
  }

  /** How many bytes have been read before call `i`. */
  function Got(size: nat, wanted: nat, script: nat -> CallReply, i: nat): (at: nat)
    ensures at <= size && at <= wanted
  {
    if i == 0 then 0
    else
      var before := Got(size, wanted, script, i - 1);
      before + Moved(size, wanted, before, script(i - 1))
  }

  /** Call `i` brings something, and the handler accepts it. */
  predicate Goes(size: nat, wanted: nat, script: nat -> CallReply, progress: nat -> bool, i: nat) {
    progress(i) && Moved(size, wanted, Got(size, wanted, script, i), script(i)) > 0
  }

  predicate AllGo(size: nat, wanted: nat, script: nat -> CallReply, progress: nat -> bool, i: nat) {
    forall j :: 0 <= j < i ==> Goes(size, wanted, script, progress, j)
  }

  lemma ReadStep(file: seq<Byte>, wanted: nat, at: nat, script: nat -> CallReply, progress: nat -> bool, i: nat)
    requires at <= |file| && at < wanted
    ensures SequentialRead(file[at..], wanted - at, i, script, progress)
         == match script(i)
            case Fails(e) => Err(e)
            case Moves(_) =>
              var after := at + Moved(|file|, wanted, at, script(i));
              if after == at then Ok([])
              else if !progress(i) then Err(ECANCELED)
              else Prepend(file[at..after], SequentialRead(file[after..], wanted - after, i + 1, script, progress))
  {
    if script(i).Moves? {
      var after := at + Moved(|file|, wanted, at, script(i));
      var chunk := Yield(file[at..], Min(CHUNK, wanted - at), script(i).n);
      assert chunk == file[at..after] && file[at..][|chunk|..] == file[after..];
    }
  }

  /** Before call `i` the read is this far. */
  lemma {:induction false} ReadSoFar(file: seq<Byte>, wanted: nat, script: nat -> CallReply, progress: nat -> bool,
                                     i: nat)
    requires AllGo(|file|, wanted, script, progress, i)
    ensures var at := Got(|file|, wanted, script, i);
            SequentialRead(file, wanted, 0, script, progress)
            == Prepend(file[..at], SequentialRead(file[at..], wanted - at, i, script, progress))
  {
    hide SequentialRead, Prepend;
    if i == 0 {
      assert file[0..] == file && file[..0] == [];
      PrependNothing(SequentialRead(file, wanted, 0, script, progress));
    } else {
      var before, at := Got(|file|, wanted, script, i - 1), Got(|file|, wanted, script, i);
      assert Goes(|file|, wanted, script, progress, i - 1);
      ReadSoFar(file, wanted, script, progress, i - 1);
      ReadStep(file, wanted, before, script, progress, i - 1);
      PrependTwice(file[..before], file[before..at], SequentialRead(file[at..], wanted - at, i, script, progress));
      assert file[..before] + file[before..at] == file[..at];
    }
  }

  /** The read ends before call `i`, with all that was wanted, or in it. */
  predicate EndsAt(size: nat, wanted: nat, script: nat -> CallReply, progress: nat -> bool, i: nat) {
    AllGo(size, wanted, script, progress, i)
    && (Got(size, wanted, script, i) == wanted || !Goes(size, wanted, script, progress, i))
  }

  /** The read goes on until everything wanted is there, a call fails or brings nothing, or the handler refuses. A
      failure is thrown as it is, a refusal of what a call brought as ECANCELED; in the other cases the result is what
      has been read until then. */
  lemma SequentialReadEnds(file: seq<Byte>, wanted: nat, script: nat -> CallReply, progress: nat -> bool, i: nat)
    requires EndsAt(|file|, wanted, script, progress, i)
    ensures var at := Got(|file|, wanted, script, i);
            SequentialRead(file, wanted, 0, script, progress)
            == if at == wanted then Ok(file[..wanted])
               else match script(i)
                    case Fails(e) => Err(e)
                    case Moves(n) => if n == 0 || at == |file| then Ok(file[..at]) else Err(ECANCELED)
  {
    hide SequentialRead;
    var at := Got(|file|, wanted, script, i);
    ReadSoFar(file, wanted, script, progress, i);
    assert file[..at] + [] == file[..at];
    if at == wanted {
      ReadNothing(file[at..], i, script, progress);
    } else {
      ReadStep(file, wanted, at, script, progress, i);
    }
  }

  lemma ReadNothing(rest: seq<Byte>, k: nat, script: nat -> CallReply, progress: nat -> bool)
    ensures SequentialRead(rest, 0, k, script, progress) == Ok([])
  {
  }

  /** Every read ends, so the law above describes each. */
  lemma {:induction false} ReadEndsSomewhere(size: nat, wanted: nat, script: nat -> CallReply, progress: nat -> bool,
                                             k: nat) returns (i: nat)
    requires AllGo(size, wanted, script, progress, k)
    ensures EndsAt(size, wanted, script, progress, i)
    decreases wanted - Got(size, wanted, script, k)
  {
    if Got(size, wanted, script, k) == wanted || !Goes(size, wanted, script, progress, k) {
      i := k;
    } else {
      i := ReadEndsSomewhere(size, wanted, script, progress, k + 1);
    }
  }

  /** Call `i` is made. */
  predicate Made(size: nat, wanted: nat, script: nat -> CallReply, progress: nat -> bool, i: nat) {
    AllGo(size, wanted, script, progress, i) && Got(size, wanted, script, i) < wanted
  }

  /** It succeeds iff no call that is made fails, and the handler accepts each that brings something. */
  lemma SequentialReadSucceedsIff(file: seq<Byte>, wanted: nat, script: nat -> CallReply, progress: nat -> bool)
    ensures SequentialRead(file, wanted, 0, script, progress).Ok?
       <==> forall i: nat :: Made(|file|, wanted, script, progress, i) ==>
              script(i).Moves? && (script(i).n > 0 && Got(|file|, wanted, script, i) < |file| ==> progress(i))
  {
    hide SequentialRead, Got;
    var i := ReadEndsSomewhere(|file|, wanted, script, progress, 0);
    SequentialReadEnds(file, wanted, script, progress, i);
    forall j: nat | Made(|file|, wanted, script, progress, j) && j != i
      ensures script(j).Moves? && progress(j)
    {
      OneEnd(|file|, wanted, script, progress, i, j);
      assert Goes(|file|, wanted, script, progress, j);
    }
  }

  /** No call is made after the one the read ends in or before. */
  lemma OneEnd(size: nat, wanted: nat, script: nat -> CallReply, progress: nat -> bool, i: nat, j: nat)
    requires EndsAt(size, wanted, script, progress, i) && Made(size, wanted, script, progress, j)
    ensures j <= i
  {
    assert i < j ==> Goes(size, wanted, script, progress, i);
  }

  method ReadSequentially(handle: FileHandle, fileSize: nat, progress: nat -> bool) returns (result: Result<seq<Byte>>)
    requires handle.Valid() && handle.position == 0 && handle.nextCall == 0
    modifies handle
    ensures handle.contents == old(handle.contents)
    ensures result == SequentialRead(handle.contents, fileSize, 0, handle.script, progress)
  {
    var data: seq<Byte> := [];
    var offset := 0;
    PrependNothing(SequentialRead(handle.contents, fileSize, 0, handle.script, progress));
    assert handle.contents[0..] == handle.contents;
    while offset < fileSize
      invariant handle.Valid() && handle.contents == old(handle.contents)
      invariant offset == |data| == handle.position <= fileSize
      invariant Prepend(data, SequentialRead(handle.contents[offset..], fileSize - offset, handle.nextCall,
                                             handle.script, progress))
             == SequentialRead(handle.contents, fileSize, 0, handle.script, progress)
    {
      var count := Min(CHUNK, fileSize - offset);
      ghost var k, before := handle.nextCall, offset;
      var chunk := handle.Read(count);
      if chunk.Err? {
        return Err(chunk.error);
      }
      if chunk.value == [] {
        break;
      }
      ghost var rest := SequentialRead(handle.contents[before..][|chunk.value|..], fileSize - before - |chunk.value|,
                                       k + 1, handle.script, progress);
      PrependTwice(data, chunk.value, rest);
      data := data + chunk.value;
      offset := offset + |chunk.value|;
      assert handle.contents[before..][|chunk.value|..] == handle.contents[offset..];
      if !progress(handle.nextCall - 1) {
        return Err(ECANCELED);
      }
    }
    assert data + [] == data;
    result := Ok(data);
  }

  lemma PrependNothing(r: Result<seq<Byte>>)
    ensures Prepend([], r) == r
  {
    if r.Ok? {
      assert [] + r.value == r.value;
    }
  }

  lemma PrependTwice(a: seq<Byte>, b: seq<Byte>, r: Result<seq<Byte>>)
    ensures Prepend(a, Prepend(b, r)) == Prepend(a + b, r)
  {
    if r.Ok? {
      assert a + (b + r.value) == a + b + r.value;
    }
  }

  // ---- the chunked write ------------------------------------------------------------------

  /** How writing `data` ends, beginning with call `k`: the error if there is one, and the bytes that reach the file. */
  function ChunkedWrite(data: seq<Byte>, k: nat, script: nat -> CallReply,
                        progress: nat -> bool): (Option<PosixError>, seq<Byte>)
    decreases |data|
  {
    if data == [] then (None, [])
    else
      match script(k)
      case Fails(e) => (Some(e), [])
      case Moves(n) =>
        var chunk := data[..Min(CHUNK, |data|)];
        var landed := chunk[..Min(n, |chunk|)];
        if !progress(k) then (Some(ECANCELED), landed)
        else
          var rest := ChunkedWrite(data[|chunk|..], k + 1, script, progress);
          (rest.0, landed + rest.1)
  }

  /** Call `k` for `data`, and every later one, writes its whole chunk. */
  predicate WritesInFull(data: seq<Byte>, k: nat, script: nat -> CallReply)
    decreases |data|
  {
    data == [] ||
    (script(k).Moves? && script(k).n >= Min(CHUNK, |data|) && WritesInFull(data[Min(CHUNK, |data|)..], k + 1, script))
  }

  /** A write that reports success leaves exactly the data in the file iff every call wrote its whole chunk:
      short writes are neither noticed nor repaired. */
  lemma {:induction false} WriteIsExact(data: seq<Byte>, k: nat, script: nat -> CallReply, progress: nat -> bool)
    ensures var (error, landed) := ChunkedWrite(data, k, script, progress);
            && |landed| <= |data|
            && (error.None? ==> (landed == data <==> WritesInFull(data, k, script)))
    decreases |data|
  {
    if data != [] && script(k).Moves? {
      var size := Min(CHUNK, |data|);
      WriteIsExact(data[size..], k + 1, script, progress);
      WholeIff(data, size, Min(script(k).n, size), ChunkedWrite(data[size..], k + 1, script, progress).1);
    }
  }

  /** A short front cannot be made up for by what follows. */
  lemma WholeIff(data: seq<Byte>, size: nat, n: nat, rest: seq<Byte>)
    requires n <= size <= |data| && |rest| <= |data| - size
    ensures data[..n] + rest == data <==> n == size && rest == data[size..]
  {
    if data[..n] + rest == data {
      assert |data[..n] + rest| == n + |rest|;
      assert rest == data[n..];
    }
    assert data == data[..size] + data[size..];
  }

  /** Success means that no call failed, the handler never refused, and the file could be synchronised. */
  predicate Uninterrupted(data: seq<Byte>, k: nat, script: nat -> CallReply, progress: nat -> bool)
    decreases |data|
  {
    data == [] || (script(k).Moves? && progress(k)
        && Uninterrupted(data[Min(CHUNK, |data|)..], k + 1, script, progress))
  }

  lemma {:induction false} ServedWritesSucceed(data: seq<Byte>, k: nat, script: nat -> CallReply, progress: nat -> bool)
    ensures ChunkedWrite(data, k, script, progress).0.None? <==> Uninterrupted(data, k, script, progress)
    decreases |data|
  {
    if data != [] && script(k).Moves? {
      ServedWritesSucceed(data[Min(CHUNK, |data|)..], k + 1, script, progress);
    }
  }

  /** Call `j` of a write of `size` bytes is answered and the handler goes on. */
  predicate Passes(script: nat -> CallReply, progress: nat -> bool, j: nat) {
    script(j).Moves? && progress(j)
  }

  /** Call `j` is made: a chunk of 1 MB begins there, and every call before it was answered and accepted. */
  predicate WriteMade(size: nat, script: nat -> CallReply, progress: nat -> bool, j: nat) {
    j * 1_048_576 < size && forall i :: 0 <= i < j ==> Passes(script, progress, i)
  }

  /** Where the chunk of call `j` begins. */
  function ChunkStart(size: nat, j: nat): (at: nat)
    ensures at <= size
  {
    Min(j * 1_048_576, size)
  }

  /** What the calls before call `j` have written: of each chunk as much as the server took. */
  function Landed(data: seq<Byte>, script: nat -> CallReply, j: nat): seq<Byte> {
    if j == 0 then []
    else
      var chunk := data[ChunkStart(|data|, j - 1)..ChunkStart(|data|, j)];
      Landed(data, script, j - 1)
      + (match script(j - 1) case Fails(_) => [] case Moves(n) => chunk[..Min(n, |chunk|)])
  }

  lemma WriteChunk(data: seq<Byte>, k: nat, script: nat -> CallReply, progress: nat -> bool)
    requires k * 1_048_576 < |data|
    ensures var rest := data[ChunkStart(|data|, k)..];
            && rest != [] && rest[..Min(CHUNK, |rest|)] == data[ChunkStart(|data|, k)..ChunkStart(|data|, k + 1)]
            && rest[Min(CHUNK, |rest|)..] == data[ChunkStart(|data|, k + 1)..]
  {
  }

  /** Before call `j` the write is this far. */
  lemma {:induction false} WriteSoFar(data: seq<Byte>, script: nat -> CallReply, progress: nat -> bool, j: nat)
    requires forall i :: 0 <= i < j ==> Passes(script, progress, i)
    requires j > 0 ==> (j - 1) * 1_048_576 < |data|
    ensures ChunkedWrite(data, 0, script, progress)
         == Behind(Landed(data, script, j), ChunkedWrite(data[ChunkStart(|data|, j)..], j, script, progress))
  {
    hide ChunkedWrite, Behind, ChunkStart;
    if j == 0 {
      StartOfData(data);
      BehindNothing(ChunkedWrite(data, 0, script, progress));
    } else {
      assert Passes(script, progress, j - 1);
      WriteSoFar(data, script, progress, j - 1);
      WriteChunk(data, j - 1, script, progress);
      WriteStep(Landed(data, script, j - 1), data[ChunkStart(|data|, j - 1)..], j - 1, script, progress);
    }
  }

  lemma StartOfData(data: seq<Byte>)
    ensures data[ChunkStart(|data|, 0)..] == data
  {
  }

  /** How a write ends is decided by the first call that fails or is refused: the failure is thrown as it is, and a
      refusal as ECANCELED after the chunk has been written. */
  lemma WriteStopsAt(data: seq<Byte>, script: nat -> CallReply, progress: nat -> bool, j: nat)
    requires WriteMade(|data|, script, progress, j) && !Passes(script, progress, j)
    ensures ChunkedWrite(data, 0, script, progress)
         == match script(j)
            case Fails(e) => (Some(e), Landed(data, script, j))
            case Moves(_) => (Some(ECANCELED), Landed(data, script, j + 1))
  {
    hide ChunkedWrite, ChunkStart;
    WriteSoFar(data, script, progress, j);
    WriteChunk(data, j, script, progress);
    WriteStep(Landed(data, script, j), data[ChunkStart(|data|, j)..], j, script, progress);
  }

  /** Without such a call every chunk is written, one per call. */
  lemma WritePasses(data: seq<Byte>, script: nat -> CallReply, progress: nat -> bool, calls: nat)
    requires (calls - 1) * 1_048_576 < |data| <= calls * 1_048_576
    requires forall j :: 0 <= j < calls ==> Passes(script, progress, j)
    ensures ChunkedWrite(data, 0, script, progress) == (None, Landed(data, script, calls))
  {
    if calls > 0 {
      WriteSoFar(data, script, progress, calls);
    }
    assert data[|data|..] == [];
    NothingToWrite(Landed(data, script, calls), calls, script, progress);
  }

  /** Call `j` writes its whole chunk. */
  predicate Whole(size: nat, script: nat -> CallReply, j: nat) {
    script(j).Moves? && script(j).n >= Min(1_048_576, size - j * 1_048_576)
  }

  lemma {:induction false} WritesInFullFrom(data: seq<Byte>, script: nat -> CallReply, k: nat)
    ensures WritesInFull(data[ChunkStart(|data|, k)..], k, script)
       <==> forall j: nat :: k <= j && j * 1_048_576 < |data| ==> Whole(|data|, script, j)
    decreases |data| - ChunkStart(|data|, k)
  {
    hide Whole;
    if k * 1_048_576 < |data| {
      WriteChunk(data, k, script, _ => true);
      WritesInFullFrom(data, script, k + 1);
      WholeFirst(data, script, k);
    }
  }

  lemma WholeFirst(data: seq<Byte>, script: nat -> CallReply, k: nat)
    requires k * 1_048_576 < |data|
    ensures Whole(|data|, script, k)
       <==> script(k).Moves? && script(k).n >= Min(CHUNK, |data[ChunkStart(|data|, k)..]|)
  {
  }

  /** A reported success leaves the data in the file iff every call wrote the whole of its chunk of 1 MB. */
  lemma WriteIsExactIff(data: seq<Byte>, script: nat -> CallReply, progress: nat -> bool)
    requires ChunkedWrite(data, 0, script, progress).0.None?
    ensures ChunkedWrite(data, 0, script, progress).1 == data
       <==> forall j: nat :: j * 1_048_576 < |data| ==> Whole(|data|, script, j)
  {
    hide ChunkedWrite, WritesInFull, Whole;
    WriteIsExact(data, 0, script, progress);
    WritesInFullFrom(data, script, 0);
    StartOfData(data);
  }

  /** `syncError` is what the final fsync reports. The file has just been created or truncated. */
  method WriteFile(handle: FileHandle, data: seq<Byte>, progress: nat -> bool, syncError: Option<PosixError>)
    returns (error: Option<PosixError>)
    requires handle.Valid() && handle.contents == [] && handle.nextCall == 0
    modifies handle
    ensures var written := ChunkedWrite(data, 0, handle.script, progress);
            && handle.contents == written.1
            && error == (if written.0.Some? then written.0 else syncError)
            && (written.0.None? ==>
                  (handle.nextCall - 1) * 1_048_576 < |data| <= handle.nextCall * 1_048_576)
  {
    hide ChunkedWrite;
    var offset := 0;
    ghost var whole := ChunkedWrite(data, 0, handle.script, progress);
    assert data[0..] == data;
    BehindNothing(whole);
    while offset < |data|
      invariant offset <= |data| && handle.Valid() && handle.position == |handle.contents|
      invariant offset == ChunkStart(|data|, handle.nextCall) && (handle.nextCall - 1) * 1_048_576 < |data|
      invariant Behind(handle.contents, ChunkedWrite(data[offset..], handle.nextCall, handle.script, progress)) == whole
    {
      var end := Min(offset + CHUNK, |data|);
      var chunk := data[offset..end];
      ghost var k, rest, before := handle.nextCall, data[offset..], handle.contents;
      assert chunk == rest[..Min(CHUNK, |rest|)] && data[end..] == rest[Min(CHUNK, |rest|)..];
      WriteStep(before, rest, k, handle.script, progress);
      var written := handle.Write(chunk);
      if written.Err? {
        return Some(written.error);
      }
      offset := end;
      if !progress(handle.nextCall - 1) {
        return Some(ECANCELED);
      }
    }
    assert data[offset..] == [];
    NothingToWrite(handle.contents, handle.nextCall, handle.script, progress);
    error := syncError;
  }

  /** A write that continues where `before` has already been written. */
  function Behind(before: seq<Byte>, w: (Option<PosixError>, seq<Byte>)): (Option<PosixError>, seq<Byte>) {
    (w.0, before + w.1)
  }

  lemma BehindNothing(w: (Option<PosixError>, seq<Byte>))
    ensures Behind([], w) == w
  {
    assert [] + w.1 == w.1;
  }

  lemma NothingToWrite(before: seq<Byte>, k: nat, script: nat -> CallReply, progress: nat -> bool)
    ensures Behind(before, ChunkedWrite([], k, script, progress)) == (None, before)
  {
    assert before + [] == before;
  }

  lemma WriteStep(before: seq<Byte>, data: seq<Byte>, k: nat, script: nat -> CallReply, progress: nat -> bool)
    requires data != []
    ensures var chunk := data[..Min(CHUNK, |data|)];
            Behind(before, ChunkedWrite(data, k, script, progress))
            == match script(k)
               case Fails(e) => (Some(e), before)
               case Moves(n) =>
                 var after := before + chunk[..Min(n, |chunk|)];
                 if !progress(k) then (Some(ECANCELED), after)
                 else Behind(after, ChunkedWrite(data[Min(CHUNK, |data|)..], k + 1, script, progress))
  {
    match script(k) {
      case Fails(e) => assert before + [] == before;
      case Moves(n) =>
        var chunk := data[..Min(CHUNK, |data|)];
        var landed := chunk[..Min(n, |chunk|)];
        var rest := ChunkedWrite(data[Min(CHUNK, |data|)..], k + 1, script, progress);
        assert before + (landed + rest.1) == before + landed + rest.1;
    }
  }

  // ---- the two together ----------------------------------------------------------------------

  /** Written in full and read back sequentially, with reads as short as the server likes, data survives. */
  lemma RoundTrip(data: seq<Byte>, writeScript: nat -> CallReply, readScript: nat -> CallReply,
                  writeProgress: nat -> bool, readProgress: nat -> bool)
    requires ChunkedWrite(data, 0, writeScript, writeProgress).0.None? && WritesInFull(data, 0, writeScript)
    requires Serves(0, readScript, readProgress)
    ensures var file := ChunkedWrite(data, 0, writeScript, writeProgress).1;
            SequentialRead(file, |file|, 0, readScript, readProgress) == Ok(data)
  {
    WriteIsExact(data, 0, writeScript, writeProgress);
    SequentialReadGivesFile(data, 0, readScript, readProgress);
  }

  /** Parallel reads that are not short agree with the sequential read of the same file. */
  lemma ParallelRefinesSequential(file: seq<Byte>, m: seq<Byte>, arrivals: seq<Arrival>, size: nat,
                                  script: nat -> CallReply, progress: nat -> bool)
    requires size > 0 && |m| == |file| && Arrivals(arrivals, |file|, size) && AllArrive(arrivals, |file|, size)
    requires Succeeds(arrivals) && Faithful(arrivals, file, size) && AllFull(arrivals, |file|, size)
    requires Serves(0, script, progress)
    ensures Ok(Arrived(m, arrivals, size, |arrivals|)) == SequentialRead(file, |file|, 0, script, progress)
  {
    FullReadsGiveFile(file, m, arrivals, size);
    SequentialReadGivesFile(file, 0, script, progress);
  }

  /** `fileSize` is what fstat reported and `readMax` the server's limit; `arrivals` and `late` are the parallel
      reads, if those are used. */
  method Contents(handle: FileHandle, fileSize: int, readMax: nat, arrivals: seq<Arrival>, late: seq<LateAnswer>,
                  progress: nat -> bool)
    returns (result: Result<seq<Byte>>)
    requires handle.Valid() && handle.position == 0 && handle.nextCall == 0
    requires readMax > 0
    requires 0 < fileSize <= 67_108_864 ==>
               var size := Min(readMax, 4_194_304);
               && Arrivals(arrivals, fileSize, size) && AllArrive(arrivals, fileSize, size)
               && LateAnswers(late, arrivals, fileSize, size)
    modifies handle
    ensures fileSize <= 0 ==> result == Ok([])
    ensures fileSize > 67_108_864 ==>
              result == SequentialRead(old(handle.contents), fileSize, 0, handle.script, progress)
    ensures 0 < fileSize <= 67_108_864 ==>
              match result
              case Err(e) => Stopped(arrivals, 0, progress) == Some(e)
              case Ok(data) =>
                && Succeeds(arrivals) && Stopped(arrivals, 0, progress) == None
                && exists m :: |m| == fileSize
                    && data == Arrived(m, arrivals, Min(readMax, 4_194_304), |arrivals|)
  {
    if fileSize <= 0 {
      return Ok([]);
    }
    if UsesPreallocatedBuffer(fileSize) {
      var chunkSize := Min(readMax, MAX_PARALLEL_CHUNK);
      var buffer;
      ghost var before;
      result, buffer, before := ReadPreallocated(fileSize, chunkSize, arrivals, late, progress);
    } else {
      result := ReadSequentially(handle, fileSize, progress);
    }
  }

  /** Whichever path is taken, a server that answers in full yields the file. */
  method ContentsGivesFile(handle: FileHandle, readMax: nat, arrivals: seq<Arrival>, progress: nat -> bool)
    returns (result: Result<seq<Byte>>)
    requires handle.Valid() && handle.position == 0 && handle.nextCall == 0 && readMax > 0
    requires Serves(0, handle.script, progress)
    requires var file, size := handle.contents, Min(readMax, MAX_PARALLEL_CHUNK);
             && Arrivals(arrivals, |file|, size) && AllArrive(arrivals, |file|, size)
             && Succeeds(arrivals) && Faithful(arrivals, file, size) && AllFull(arrivals, |file|, size)
    modifies handle
    ensures result == Ok(old(handle.contents))
  {
    ghost var file, size := handle.contents, Min(readMax, MAX_PARALLEL_CHUNK);
    StoppedIff(arrivals, 0, progress);
    SequentialReadGivesFile(file, 0, handle.script, progress);
    result := Contents(handle, |handle.contents|, readMax, arrivals, [], progress);
    if UsesPreallocatedBuffer(|file|) {
      var m :| |m| == |file| && result == Ok(Arrived(m, arrivals, size, |arrivals|));
      FullReadsGiveFile(file, m, arrivals, size);
    }
  }
}
