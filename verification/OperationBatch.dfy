/**
 A batch of chunks: which are waiting, issued and done, what cancelling does, and how the chunks
 are put together, either from one `Data` per chunk or inside one shared buffer.
 */
module Batches {
  import opened Common
  import opened ReadBuffers
  import opened Slices

  datatype BatchState = Active | Cancelled(reason: PosixError) | Completed

  /** The value of a batch; `sliceSize` is the chunk size in buffer-slice mode. */
  datatype Batch = Batch(
    state: BatchState,
    pending: seq<int>,
    inFlight: set<int>,
    chunks: map<int, seq<Byte>>,
    total: nat,
    sliceSize: Option<nat>,
    counts: map<int, nat>)

  function Range(low: int, high: int): (r: seq<int>)
    requires low <= high
    ensures |r| == high - low && forall k :: 0 <= k < |r| ==> r[k] == low + k
  {
    seq(high - low, k => low + k)
  }

  function NewBatch(total: nat, sliceSize: Option<nat>): Batch {
    Batch(Active, Range(0, total), {}, map[], total, sliceSize, map[])
  }

  /** The chunk `dequeueNextChunk` returns, if any. */
  function Next(b: Batch): Option<int> {
    if b.state.Active? && b.pending != [] then Some(b.pending[0]) else None
  }

  function Dequeued(b: Batch): Batch {
    if Next(b).Some? then b.(pending := b.pending[1..], inFlight := b.inFlight + {b.pending[0]}) else b
  }

  function ChunkRecorded(b: Batch, index: int, data: seq<Byte>): Batch {
    if b.state.Active? then b.(inFlight := b.inFlight - {index}, chunks := b.chunks[index := data]) else b
  }

  function SliceRecorded(b: Batch, index: int, bytesWritten: nat): Batch {
    if b.state.Active? then b.(inFlight := b.inFlight - {index}, counts := b.counts[index := bytesWritten]) else b
  }

  function CancelledWith(b: Batch, reason: PosixError): Batch {
    if b.state.Active? then b.(state := Cancelled(reason), pending := []) else b
  }

  function MarkedCompleted(b: Batch): Batch {
    b.(state := Completed)
  }

  function Done(b: Batch): set<int> {
    if b.sliceSize.Some? then b.counts.Keys else b.chunks.Keys
  }

  predicate IsComplete(b: Batch) {
    b.state.Active? && |Done(b)| == b.total
  }

  function ChunksInOrder(b: Batch): (r: seq<seq<Byte>>)
    ensures |r| == b.total
    ensures forall i :: 0 <= i < b.total ==> r[i] == if i in b.chunks then b.chunks[i] else []
  {
    seq(b.total, i => if i in b.chunks then b.chunks[i] else [])
  }

  function CountsInOrder(b: Batch): (r: seq<nat>)
    ensures |r| == b.total
    ensures forall i :: 0 <= i < b.total ==> r[i] == if i in b.counts then b.counts[i] else 0
  {
    seq(b.total, i => if i in b.counts then b.counts[i] else 0)
  }

  // ---- the class --------------------------------------------------------------

  class OperationBatch {
    var state: BatchState
    var pendingChunkIndices: seq<int>
    var inFlightChunkIndices: set<int>
    var completedChunks: map<int, seq<Byte>>
    const totalChunks: nat
    const sliceBuffer: ReadBuffer?
    const sliceChunkSize: nat
    var completedSliceByteCounts: map<int, nat>

    ghost predicate Valid()
      reads this, sliceBuffer
    {
      sliceBuffer != null ==>
        && sliceBuffer.Valid()
        && totalChunks * sliceChunkSize <= sliceBuffer.size
        && (forall i :: i in completedSliceByteCounts ==> completedSliceByteCounts[i] <= sliceChunkSize)
    }

    ghost function View(): Batch
      reads this
    {
      Batch(state, pendingChunkIndices, inFlightChunkIndices, completedChunks, totalChunks,
            if sliceBuffer == null then None else Some(sliceChunkSize), completedSliceByteCounts)
    }

    constructor (totalChunks: nat)
      ensures Valid() && View() == NewBatch(totalChunks, None) && sliceBuffer == null
    {
      state := Active;
      pendingChunkIndices, inFlightChunkIndices := Range(0, totalChunks), {};
      completedChunks, completedSliceByteCounts := map[], map[];
      this.totalChunks := totalChunks;
      sliceBuffer, sliceChunkSize := null, 0;
    }

    constructor Sliced(totalChunks: nat, buffer: ReadBuffer, chunkSize: nat)
      requires buffer.Valid() && totalChunks * chunkSize <= buffer.size
      ensures Valid() && View() == NewBatch(totalChunks, Some(chunkSize)) && sliceBuffer == buffer
    {
      state := Active;
      pendingChunkIndices, inFlightChunkIndices := Range(0, totalChunks), {};
      completedChunks, completedSliceByteCounts := map[], map[];
      this.totalChunks := totalChunks;
      sliceBuffer, sliceChunkSize := buffer, chunkSize;
    }

    method DequeueNextChunk() returns (index: Option<int>)
      requires Valid()
      modifies this
      ensures Valid() && View() == Dequeued(old(View())) && index == Next(old(View()))
    {
      if !state.Active? || pendingChunkIndices == [] {
        return None;
      }
      index := Some(pendingChunkIndices[0]);
      pendingChunkIndices := pendingChunkIndices[1..];
      inFlightChunkIndices := inFlightChunkIndices + {index.value};
    }

    method RecordChunkCompletion(index: int, data: seq<Byte>)
      requires Valid()
      modifies this
      ensures Valid() && View() == ChunkRecorded(old(View()), index, data)
    {
      if !state.Active? {
        return;
      }
      inFlightChunkIndices := inFlightChunkIndices - {index};
      completedChunks := completedChunks[index := data];
    }

    method RecordSliceCompletion(index: int, bytesWritten: nat)
      requires Valid() && bytesWritten <= sliceChunkSize
      modifies this
      ensures Valid() && View() == SliceRecorded(old(View()), index, bytesWritten)
    {
      if !state.Active? {
        return;
      }
      inFlightChunkIndices := inFlightChunkIndices - {index};
      completedSliceByteCounts := completedSliceByteCounts[index := bytesWritten];
    }

    method ReportsComplete() returns (complete: bool)
      ensures complete == IsComplete(View())
    {
      if !state.Active? {
        return false;
      }
      if sliceBuffer != null {
        return |completedSliceByteCounts.Keys| == totalChunks;
      }
      complete := |completedChunks.Keys| == totalChunks;
    }

    /** The bytes written to all slices together. */
    method TotalBytesWritten() returns (totalBytesWritten: nat)
      ensures totalBytesWritten == Sum(CountsInOrder(View()))
    {
      ghost var counts := CountsInOrder(View());
      totalBytesWritten := 0;
      for index := 0 to totalChunks
        invariant totalBytesWritten == Sum(counts[..index])
      {
        SumAppend(counts[..index], counts[index]);
        assert counts[..index] + [counts[index]] == counts[..index + 1];
        var written := if index in completedSliceByteCounts then completedSliceByteCounts[index] else 0;
        totalBytesWritten := totalBytesWritten + written;
      }
      assert counts[..totalChunks] == counts;
    }

    /** The chunks that arrived, one after the other in index order. */
    method ConcatenateChunks() returns (data: seq<Byte>)
      ensures data == Concat(ChunksInOrder(View()))
    {
      ghost var chunks := ChunksInOrder(View());
      data := [];
      for index := 0 to totalChunks
        invariant data == Concat(chunks[..index])
      {
        ConcatAppend(chunks[..index], chunks[index]);
        assert chunks[..index] + [chunks[index]] == chunks[..index + 1];
        if index in completedChunks {
          data := data + completedChunks[index];
        }
      }
      assert chunks[..totalChunks] == chunks;
    }

    /** The front of the shared buffer, which is given away, or the concatenated chunks. */
    method AssembleData() returns (data: seq<Byte>)
      requires Valid()
      modifies sliceBuffer
      ensures Valid() && View() == old(View())
      ensures sliceBuffer == null ==> data == Concat(ChunksInOrder(View()))
      ensures sliceBuffer != null ==>
                && !sliceBuffer.isOwned && sliceBuffer.wrappers == old(sliceBuffer.wrappers) + 1
                && sliceBuffer.deallocations == old(sliceBuffer.deallocations)
                && Sum(CountsInOrder(View())) <= sliceBuffer.size
                && data == sliceBuffer.pointer[..Sum(CountsInOrder(View()))]
    {
      if sliceBuffer != null {
        var totalBytesWritten := TotalBytesWritten();
        SumBounded(CountsInOrder(View()), sliceChunkSize);
        sliceBuffer.Disown();
        data := sliceBuffer.Wrap(totalBytesWritten);
      } else {
        data := ConcatenateChunks();
      }
    }

    method Cancel(reason: PosixError)
      requires Valid()
      modifies this
      ensures Valid() && View() == CancelledWith(old(View()), reason)
    {
      if !state.Active? {
        return;
      }
      state := Cancelled(reason);
      pendingChunkIndices := [];
    }

    method MarkCompleted()
      requires Valid()
      modifies this
      ensures Valid() && View() == MarkedCompleted(old(View()))
    {
      state := Completed;
    }
  }

  /**
   The rest of the life of a batch's shared buffer: the batch is assembled so many times (0 when it fails or is
   cancelled), the buffer's last reference goes, and so does every `Data` made of it. The memory is freed exactly once
   iff the batch is assembled at most once.
   */
  method LifeOfBuffer(batch: OperationBatch, assemblies: nat)
    requires batch.Valid() && batch.sliceBuffer != null
    requires batch.sliceBuffer.isOwned && batch.sliceBuffer.wrappers == 0 && batch.sliceBuffer.deallocations == 0
    modifies batch.sliceBuffer
    ensures batch.sliceBuffer.wrappers == 0 && batch.sliceBuffer.deallocations == Max(1, assemblies)
    ensures batch.sliceBuffer.deallocations == 1 <==> assemblies <= 1
  {
    var buffer := batch.sliceBuffer;
    for i := 0 to assemblies
      invariant batch.Valid()
      invariant buffer.wrappers == i && buffer.deallocations == 0 && (buffer.isOwned <==> i == 0)
    {
      var data := batch.AssembleData();
    }
    buffer.Deinit();
    for i := 0 to assemblies
      invariant buffer.wrappers == assemblies - i
      invariant buffer.deallocations == i + if assemblies == 0 then 1 else 0
    {
      buffer.ReleaseData();
    }
  }

  lemma {:induction false} ConcatAppend(chunks: seq<seq<Byte>>, chunk: seq<Byte>)
    ensures Concat(chunks + [chunk]) == Concat(chunks) + chunk
  {
    if chunks == [] {
      assert [] + [chunk] == [chunk];
    } else {
      ConcatAppend(chunks[1..], chunk);
      assert (chunks + [chunk])[1..] == chunks[1..] + [chunk];
    }
  }

  lemma {:induction false} SumAppend(counts: seq<nat>, count: nat)
    ensures Sum(counts + [count]) == Sum(counts) + count
  {
    if counts == [] {
      assert [] + [count] == [count];
    } else {
      SumAppend(counts[1..], count);
      assert (counts + [count])[1..] == counts[1..] + [count];
    }
  }

  lemma {:induction false} SumBounded(counts: seq<nat>, size: nat)
    requires Fits(counts, size)
    ensures Sum(counts) <= |counts| * size
  {
    if counts != [] {
      SumBounded(counts[1..], size);
      assert |counts| * size == (|counts| - 1) * size + size;
    }
  }

  // ---- runs -------------------------------------------------------------------

  datatype BatchStep =
    | Dequeue
    | RecordChunk(index: int, data: seq<Byte>)
    | RecordSlice(index: int, bytesWritten: nat)
    | CancelBatch(reason: PosixError)
    | MarkCompleted

  function ApplyBatch(b: Batch, step: BatchStep): Batch {
    match step
    case Dequeue => Dequeued(b)
    case RecordChunk(index, data) => ChunkRecorded(b, index, data)
    case RecordSlice(index, bytesWritten) => SliceRecorded(b, index, bytesWritten)
    case CancelBatch(reason) => CancelledWith(b, reason)
    case MarkCompleted => MarkedCompleted(b)
  }

  function RunBatch(b: Batch, steps: seq<BatchStep>): Batch
    decreases |steps|
  {
    if steps == [] then b else RunBatch(ApplyBatch(b, steps[0]), steps[1..])
  }

  /** The chunks handed out, in order. */
  function Issued(b: Batch, steps: seq<BatchStep>): seq<int>
    decreases |steps|
  {
    if steps == [] then []
    else
      (if steps[0].Dequeue? && Next(b).Some? then [Next(b).value] else []) + Issued(ApplyBatch(b, steps[0]), steps[1..])
  }

  /** Completions are reported in the batch's own mode, and only for chunks in flight. */
  predicate Reported(b: Batch, step: BatchStep) {
    && (step.RecordChunk? ==> b.sliceSize.None? && step.index in b.inFlight)
    && (step.RecordSlice? ==> b.sliceSize.Some? && step.index in b.inFlight)
  }

  predicate WellUsed(b: Batch, steps: seq<BatchStep>)
    decreases |steps|
  {
    steps == [] || (Reported(b, steps[0]) && WellUsed(ApplyBatch(b, steps[0]), steps[1..]))
  }

  // ---- dequeuing ----------------------------------------------------------------

  lemma {:induction false} IssuedFromFront(b: Batch, steps: seq<BatchStep>)
    ensures Issued(b, steps) <= b.pending
    decreases |steps|
  {
    if steps != [] {
      IssuedFromFront(ApplyBatch(b, steps[0]), steps[1..]);
    }
  }

  /** On every run, each chunk is handed out at most once and in increasing order without gaps. */
  lemma IssuedInOrder(total: nat, sliceSize: Option<nat>, steps: seq<BatchStep>)
    ensures var issued := Issued(NewBatch(total, sliceSize), steps);
            |issued| <= total && issued == Range(0, |issued|)
  {
    IssuedFromFront(NewBatch(total, sliceSize), steps);
    var issued := Issued(NewBatch(total, sliceSize), steps);
    assert issued == Range(0, total)[..|issued|];
  }

  // ---- the partition --------------------------------------------------------------

  /** While active, the chunks 0..<total are waiting (the last ones), in flight, or done. */
  ghost predicate Partitioned(b: Batch) {
    && |b.pending| <= b.total
    && b.pending == Range(b.total - |b.pending|, b.total)
    && (forall i :: 0 <= i < b.total - |b.pending| <==> i in b.inFlight || i in Done(b))
    && b.inFlight !! Done(b)
  }

  lemma StepPartitioned(b: Batch, step: BatchStep)
    requires Partitioned(b) && Reported(b, step) && ApplyBatch(b, step).state.Active? && b.state.Active?
    ensures Partitioned(ApplyBatch(b, step))
  {
  }

  lemma InactiveIsForever(b: Batch, step: BatchStep)
    requires !b.state.Active?
    ensures !ApplyBatch(b, step).state.Active?
  {
  }

  lemma {:induction false} RunPartitioned(b: Batch, steps: seq<BatchStep>)
    requires (b.state.Active? ==> Partitioned(b)) && WellUsed(b, steps)
    ensures RunBatch(b, steps).state.Active? ==> Partitioned(RunBatch(b, steps))
    decreases |steps|
  {
    hide Partitioned, ApplyBatch, Reported;
    if steps != [] {
      var b' := ApplyBatch(b, steps[0]);
      if !b.state.Active? {
        InactiveIsForever(b, steps[0]);
      } else if b'.state.Active? {
        StepPartitioned(b, steps[0]);
      }
      RunPartitioned(b', steps[1..]);
    }
  }

  function UpTo(n: nat): (r: set<int>)
    ensures |r| == n && forall i :: i in r <==> 0 <= i < n
  {
    if n == 0 then {} else UpTo(n - 1) + {n - 1}
  }

  /** In a partitioned batch, having as many completions as chunks means that nothing waits and nothing is in flight. */
  lemma CompleteMeansNothingOpen(b: Batch)
    requires b.state.Active? && Partitioned(b)
    ensures IsComplete(b) <==> b.pending == [] && b.inFlight == {}
  {
    hide Done, UpTo;
    assert b.inFlight + Done(b) == UpTo(b.total - |b.pending|);
    assert |b.inFlight + Done(b)| == |b.inFlight| + |Done(b)|;
  }

  /** On every run on which completions are reported only for chunks in flight. */
  lemma PartitionOnRuns(total: nat, sliceSize: Option<nat>, steps: seq<BatchStep>)
    requires WellUsed(NewBatch(total, sliceSize), steps)
    ensures var b := RunBatch(NewBatch(total, sliceSize), steps);
            b.state.Active? ==> Partitioned(b) && (IsComplete(b) <==> b.pending == [] && b.inFlight == {})
  {
    hide RunBatch, WellUsed, IsComplete;
    RunPartitioned(NewBatch(total, sliceSize), steps);
    var b := RunBatch(NewBatch(total, sliceSize), steps);
    if b.state.Active? {
      CompleteMeansNothingOpen(b);
    }
  }

  // ---- cancelling -------------------------------------------------------------------

  /** A cancelled batch does not change at all, and hands out nothing, until it is marked completed; after that
      only its state has changed, for good: the error is lost. */
  lemma {:induction false} CancelledIsFrozen(b: Batch, steps: seq<BatchStep>)
    requires !b.state.Active?
    ensures Issued(b, steps) == [] && !IsComplete(RunBatch(b, steps))
    ensures RunBatch(b, steps) == if MarkCompleted in steps then b.(state := Completed) else b
    decreases |steps|
  {
    if steps != [] {
      CancelledIsFrozen(ApplyBatch(b, steps[0]), steps[1..]);
    }
  }

  /** After `cancel`, the first error is kept iff nobody marks the batch completed. */
  lemma FirstErrorKeptIff(b: Batch, reason: PosixError, steps: seq<BatchStep>)
    requires b.state.Active?
    ensures var after := RunBatch(CancelledWith(b, reason), steps);
            && after.pending == [] && after.inFlight == b.inFlight && after.chunks == b.chunks
                && after.counts == b.counts
            && (after.state == Cancelled(reason) <==> MarkCompleted !in steps)
  {
    CancelledIsFrozen(CancelledWith(b, reason), steps);
  }

  // ---- one buffer instead of many chunks ------------------------------------------------

  function AsSliceStep(step: BatchStep): BatchStep {
    if step.RecordChunk? then RecordSlice(step.index, |step.data|) else step
  }

  function AsSliceSteps(steps: seq<BatchStep>): seq<BatchStep> {
    if steps == [] then [] else [AsSliceStep(steps[0])] + AsSliceSteps(steps[1..])
  }

  /** Every completion brings at most `size` bytes. */
  predicate Short(steps: seq<BatchStep>, size: nat) {
    forall k :: 0 <= k < |steps| && steps[k].RecordChunk? ==> |steps[k].data| <= size
  }

  /** The shared memory after the read of one completion has stored its bytes, whether the batch still wants them or
      not. */
  function Stored(m: seq<Byte>, step: BatchStep, size: nat): (r: seq<Byte>)
    ensures |r| == |m|
  {
    if step.RecordChunk? && 0 <= step.index && step.index * size + |step.data| <= |m|
    then WriteAt(m, step.index * size, step.data) else m
  }

  function MemoryAfter(m: seq<Byte>, steps: seq<BatchStep>, size: nat): (r: seq<Byte>)
    ensures |r| == |m|
    decreases |steps|
  {
    if steps == [] then m else MemoryAfter(Stored(m, steps[0], size), steps[1..], size)
  }

  /** The waiting, in-flight and done chunks are distinct and in range. */
  ghost predicate Distinct(b: Batch, done: set<int>) {
    && b.inFlight !! done
    && (forall i :: i in b.pending ==> 0 <= i < b.total)
    && (forall i :: i in b.inFlight ==> 0 <= i < b.total)
    && (forall i :: i in done ==> 0 <= i < b.total)
    && (forall i, j :: 0 <= i < j < |b.pending| ==> b.pending[i] < b.pending[j])
    && (forall i :: i in b.pending ==> i !in b.inFlight && i !in done)
  }

  /** Each chunk that is done lies at the front of its slice. */
  ghost predicate InPlace(chunks: map<int, seq<Byte>>, total: nat, m: seq<Byte>, size: nat) {
    && total * size <= |m|
    && (forall i :: i in chunks ==> 0 <= i < total && |chunks[i]| <= size)
    && (forall i :: i in chunks ==> i * size <= |m| && chunks[i] <= Block(m, i, size))
  }

  /** The slice-mode batch `s` with memory `m` stands for the legacy batch `l`. */
  ghost predicate Mirrors(l: Batch, s: Batch, m: seq<Byte>, size: nat) {
    && l.sliceSize.None? && s.sliceSize.Some? && l.total == s.total
    && s.state == l.state && s.pending == l.pending && s.inFlight == l.inFlight
    && Distinct(l, l.chunks.Keys)
    && s.counts.Keys == l.chunks.Keys && (forall i :: i in l.chunks ==> s.counts[i] == |l.chunks[i]|)
    && InPlace(l.chunks, l.total, m, size)
  }

  /** A completed read stores into its own slice; nothing that is done lies there. */
  lemma StoredInPlace(chunks: map<int, seq<Byte>>, total: nat, m: seq<Byte>, size: nat, index: int, data: seq<Byte>)
    requires InPlace(chunks, total, m, size) && 0 <= index < total && index !in chunks && |data| <= size
    ensures var m' := Stored(m, RecordChunk(index, data), size);
            InPlace(chunks, total, m', size) && InPlace(chunks[index := data], total, m', size)
  {
    OffsetsWithin(index, total, size);
    var m' := Stored(m, RecordChunk(index, data), size);
    forall i | i in chunks[index := data] ensures i * size <= |m| && chunks[index := data][i] <= Block(m', i, size) {
      OffsetsWithin(i, total, size);
      BlockAfterWrite(m, index, i, size, data);
    }
  }

  lemma StepDistinct(l: Batch, step: BatchStep)
    requires l.sliceSize.None? && Distinct(l, l.chunks.Keys) && Reported(l, step)
    ensures Distinct(ApplyBatch(l, step), ApplyBatch(l, step).chunks.Keys)
  {
    if step.Dequeue? && Next(l).Some? {
      var first, rest := l.pending[0], l.pending[1..];
      assert first in l.pending;
      assert forall k :: 0 <= k < |rest| ==> rest[k] == l.pending[k + 1] && rest[k] in l.pending;
      assert forall i :: i in rest ==> i in l.pending && i != first;
    }
  }

  lemma StepMirrors(l: Batch, s: Batch, m: seq<Byte>, size: nat, step: BatchStep)
    requires Mirrors(l, s, m, size) && Reported(l, step) && (step.RecordChunk? ==> |step.data| <= size)
    ensures Mirrors(ApplyBatch(l, step), ApplyBatch(s, AsSliceStep(step)), Stored(m, step, size), size)
  {
    hide InPlace, Distinct, Stored;
    StepDistinct(l, step);
    if step.RecordChunk? {
      InFlightIsOpen(l, step.index);
      StoredInPlace(l.chunks, l.total, m, size, step.index, step.data);
    } else {
      NotStored(m, step, size);
    }
  }

  lemma InFlightIsOpen(l: Batch, i: int)
    requires Distinct(l, l.chunks.Keys) && i in l.inFlight
    ensures 0 <= i < l.total && i !in l.chunks
  {
  }

  lemma NotStored(m: seq<Byte>, step: BatchStep, size: nat)
    requires !step.RecordChunk?
    ensures Stored(m, step, size) == m
  {
  }

  lemma {:induction false} RunMirrors(l: Batch, s: Batch, m: seq<Byte>, size: nat, steps: seq<BatchStep>)
    requires Mirrors(l, s, m, size) && WellUsed(l, steps) && Short(steps, size)
    ensures Mirrors(RunBatch(l, steps), RunBatch(s, AsSliceSteps(steps)), MemoryAfter(m, steps, size), size)
    decreases |steps|
  {
    hide Mirrors, ApplyBatch, Stored, Reported;
    if steps != [] {
      StepMirrors(l, s, m, size, steps[0]);
      assert forall k :: 0 <= k < |steps| - 1 ==> steps[1..][k] == steps[k + 1];
      RunMirrors(ApplyBatch(l, steps[0]), ApplyBatch(s, AsSliceStep(steps[0])), Stored(m, steps[0], size), size,
          steps[1..]);
      assert AsSliceSteps(steps)[1..] == AsSliceSteps(steps[1..]);
    }
  }

  /**
   The same run, once with one `Data` per chunk and once with every completion read into the shared memory
   (which starts with arbitrary contents): dequeuing, cancelling and completeness agree, the byte totals agree, and if
   every slice before a non-empty one is full, the assembled data agree.
   */
  lemma SliceModeRefinesLegacy(total: nat, size: nat, m: seq<Byte>, steps: seq<BatchStep>)
    requires total * size <= |m|
    requires WellUsed(NewBatch(total, None), steps) && Short(steps, size)
    ensures var l := RunBatch(NewBatch(total, None), steps);
            var s := RunBatch(NewBatch(total, Some(size)), AsSliceSteps(steps));
            var m' := MemoryAfter(m, steps, size);
            && s.state == l.state && s.pending == l.pending && s.inFlight == l.inFlight
            && (IsComplete(s) <==> IsComplete(l))
            && CountsInOrder(s) == Lengths(ChunksInOrder(l))
            && Sum(CountsInOrder(s)) == |Concat(ChunksInOrder(l))|
            && (FullUntilLast(CountsInOrder(s), size) ==> Concat(ChunksInOrder(l)) <= m')
  {
    hide RunBatch, WellUsed, MemoryAfter, AsSliceSteps, Concat, Sum, Short, FullUntilLast;
    var l0, s0 := NewBatch(total, None), NewBatch(total, Some(size));
    RunMirrors(l0, s0, m, size, steps);
    var l, s := RunBatch(l0, steps), RunBatch(s0, AsSliceSteps(steps));
    TotalIsFixed(l0, steps);
    assert CountsInOrder(s) == Lengths(ChunksInOrder(l));
    ConcatLength(ChunksInOrder(l));
    if FullUntilLast(CountsInOrder(s), size) {
      AllInPlace(l, MemoryAfter(m, steps, size), size);
      HeldChunksAdjoin(MemoryAfter(m, steps, size), ChunksInOrder(l), size);
    }
  }

  lemma {:induction false} TotalIsFixed(b: Batch, steps: seq<BatchStep>)
    ensures RunBatch(b, steps).total == b.total
    decreases |steps|
  {
    if steps != [] {
      TotalIsFixed(ApplyBatch(b, steps[0]), steps[1..]);
    }
  }

  /** A chunk that is missing is like an empty one. */
  lemma AllInPlace(l: Batch, m: seq<Byte>, size: nat)
    requires InPlace(l.chunks, l.total, m, size)
    ensures Holds(m, ChunksInOrder(l), size)
  {
    forall i | 0 <= i < l.total ensures i * size <= |m| && ChunksInOrder(l)[i] <= Block(m, i, size) {
      OffsetsWithin(i, l.total, size);
    }
  }
}
