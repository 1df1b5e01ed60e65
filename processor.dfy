/**
  The consumer loop. One iteration of `run()` asks the barrier how far it may
  read, hands every event from its next index up to that point to the
  handler in order (flagging the last one as the end of the batch), and then
  stores its own cursor once for the whole batch.
 */
module Processors {
  import opened Numerics
  import opened Sequences
  import opened Barriers
  import opened RingBuffers

  /** One call of the handler: the slot's event, its sequence and the end-of-batch flag. */
  datatype HandlerCall<T> = HandlerCall(event: T, sequence: Long, endOfBatch: bool)

  /**
    The handler calls one iteration makes over a ring whose slots are
    `slots`, starting at `next` with `available` the barrier's answer.
   */
  function Batch<T>(slots: seq<T>, next: Long, available: Long): (calls: seq<HandlerCall<T>>)
    requires |slots| > 0 && available < LONG_MAX
    // one call per index from `next` to `available`, none when `available < next`
    ensures |calls| == if next > available then 0 else available - next + 1
    decreases available - next
  {
    if next > available then []
    else [HandlerCall(slots[next % |slots|], next, next == available)] + Batch(slots, next + 1, available)
  }

  /** A batch that is not empty starts with the call for `next` and continues from `next + 1`. */
  lemma BatchUnfold<T>(slots: seq<T>, next: Long, available: Long)
    requires |slots| > 0 && next <= available < LONG_MAX
    ensures Batch(slots, next, available) ==
              [HandlerCall(slots[next % |slots|], next, next == available)] + Batch(slots, next + 1, available)
  {
  }

  /**
    The k-th call of a batch is for index `next + k`, with that index's slot,
    and it is the end of the batch exactly when `next + k == available`.
   */
  lemma {:induction false} BatchAt<T>(slots: seq<T>, next: Long, available: Long, k: nat)
    requires |slots| > 0 && available < LONG_MAX
    requires k < |Batch(slots, next, available)|
    ensures next + k <= available
    ensures Batch(slots, next, available)[k] ==
              HandlerCall(slots[(next + k) % |slots|], next + k, next + k == available)
    decreases available - next
  {
    if k > 0 {
      BatchAt(slots, next + 1, available, k - 1);
    }
  }

  /** Only the last call of a non-empty batch carries the end-of-batch flag. */
  lemma BatchEndsOnlyAtLast<T>(slots: seq<T>, next: Long, available: Long)
    requires |slots| > 0 && next <= available < LONG_MAX
    ensures var b := Batch(slots, next, available);
            |b| > 0 && b[|b| - 1].endOfBatch && b[|b| - 1].sequence == available &&
            forall k :: 0 <= k < |b| - 1 ==> !b[k].endOfBatch
  {
    var b := Batch(slots, next, available);
    BatchAt(slots, next, available, |b| - 1);
    forall k | 0 <= k < |b| - 1
      ensures !b[k].endOfBatch
    {
      BatchAt(slots, next, available, k);
    }
  }

  /**
    Two consecutive batches, the second starting where the first stopped,
    are one batch over the joined range except for the first batch's final flag.
   */
  lemma {:induction false} ConsecutiveBatchesAreContiguous<T>(slots: seq<T>, next: Long, mid: Long, available: Long)
    requires |slots| > 0 && next <= mid < available < LONG_MAX
    ensures var joined := Batch(slots, next, mid) + Batch(slots, mid + 1, available);
            |joined| == available - next + 1 &&
            forall k :: 0 <= k < |joined| ==> joined[k].sequence == next + k
  {
    var first: seq<HandlerCall<T>> := Batch(slots, next, mid);
    var second: seq<HandlerCall<T>> := Batch(slots, mid + 1, available);
    forall k | 0 <= k < |first| + |second|
      ensures (first + second)[k].sequence == next + k
    {
      if k < |first| {
        BatchAt(slots, next, mid, k);
      } else {
        BatchAt(slots, mid + 1, available, k - |first|);
      }
    }
  }

  /** With the blocking barrier, which answers with the requested index, every batch is one event, flagged last. */
  lemma BlockingBatchIsSingleEvent<T>(slots: seq<T>, next: Long)
    requires |slots| > 0 && next < LONG_MAX
    ensures Batch(slots, next, next) == [HandlerCall(slots[next % |slots|], next, true)]
  {
    assert Batch(slots, next + 1, next) == [];
  }

  class BatchEventProcessor<T(0)> {
    const currentConsumerSequence: Sequence
    const ringBuffer: RingBuffer<T>
    const sequenceBarrier: SequenceBarrier
    /** `run()`'s local `nextConsumerIndex`, kept here so that one iteration is one call. */
    var nextConsumerIndex: Long
    /** The handler calls made since `run()` started, in order. */
    var calls: seq<HandlerCall<T>>
    /** The index `run()` started at. */
    ghost var firstIndex: int

    /**
      The handler has been called once for each index from `firstIndex` up to
      `nextConsumerIndex - 1`, in increasing order, each time with that index's slot.
     */
    ghost predicate Valid()
      reads this, ringBuffer.elementList
    {
      && ringBuffer.Valid()
      && |calls| == nextConsumerIndex - firstIndex
      && forall k :: 0 <= k < |calls| ==>
           calls[k].sequence == firstIndex + k &&
           calls[k].event == ringBuffer.elementList[(firstIndex + k) % ringBuffer.ringBufferSize]
    }

    constructor (ringBuffer: RingBuffer<T>, sequenceBarrier: SequenceBarrier)
      requires ringBuffer.Valid()
      ensures this.ringBuffer == ringBuffer && this.sequenceBarrier == sequenceBarrier
      ensures fresh(currentConsumerSequence) && currentConsumerSequence.value == -1
      ensures calls == [] && Valid()
    {
      currentConsumerSequence := new Sequence.WithValue(-1);
      this.ringBuffer := ringBuffer;
      this.sequenceBarrier := sequenceBarrier;
      nextConsumerIndex := 0;
      calls := [];
      firstIndex := 0;
    }

    /** The start of `run()`: the first index to handle is one past the stored cursor. */
    method BeginRun()
      requires ringBuffer.Valid()
      modifies this
      ensures nextConsumerIndex == Wrap64(currentConsumerSequence.value + 1)
      ensures firstIndex == nextConsumerIndex && calls == [] && Valid()
    {
      var consumed := currentConsumerSequence.Get();
      nextConsumerIndex := Wrap64(consumed as int + 1);
      calls := [];
      firstIndex := nextConsumerIndex;
    }

    /**
      The body of one iteration once the barrier has answered `available`:
      every index from `nextConsumerIndex` to `available` goes to the handler,
      then the cursor is stored once, whatever `available` was.
     */
    method ProcessAvailable(available: Long)
      requires Valid() && available < LONG_MAX
      modifies this, currentConsumerSequence
      ensures calls == old(calls) + Batch(ringBuffer.elementList[..], old(nextConsumerIndex), available)
      ensures nextConsumerIndex == if available >= old(nextConsumerIndex) then available + 1 else old(nextConsumerIndex)
      ensures currentConsumerSequence.value == available
      ensures firstIndex == old(firstIndex) && Valid()
    {
      ghost var slots := ringBuffer.elementList[..];
      ghost var start := nextConsumerIndex;
      while nextConsumerIndex <= available
        invariant Valid() && firstIndex == old(firstIndex)
        invariant start <= nextConsumerIndex && (start <= available ==> nextConsumerIndex <= available + 1)
        invariant old(calls) + Batch(slots, start, available) == calls + Batch(slots, nextConsumerIndex, available)
        decreases available - nextConsumerIndex
      {
        var event := ringBuffer.Get(nextConsumerIndex);
        var call := HandlerCall(event, nextConsumerIndex, nextConsumerIndex == available);
        BatchUnfold(slots, nextConsumerIndex, available);
        assert calls + Batch(slots, nextConsumerIndex, available) ==
               (calls + [call]) + Batch(slots, nextConsumerIndex + 1, available);
        calls := calls + [call];
        nextConsumerIndex := nextConsumerIndex + 1;
      }
      currentConsumerSequence.LazySet(available);
    }

    /**
      One whole iteration with the blocking barrier: the batch is the single
      requested index, handled with the end-of-batch flag set.
     */
    method RunIteration()
      requires Valid() && nextConsumerIndex < LONG_MAX
      requires sequenceBarrier.currentProducerSequence.value >= nextConsumerIndex
      modifies this, currentConsumerSequence
      ensures calls == old(calls) + [HandlerCall(ringBuffer.Get(old(nextConsumerIndex)), old(nextConsumerIndex), true)]
      ensures nextConsumerIndex == old(nextConsumerIndex) + 1
      ensures currentConsumerSequence.value == old(nextConsumerIndex)
      ensures firstIndex == old(firstIndex) && Valid()
    {
      var available := sequenceBarrier.GetAvailableConsumerSequence(nextConsumerIndex);
      BlockingBatchIsSingleEvent(ringBuffer.elementList[..], available);
      ProcessAvailable(available);
    }

    method GetCurrentConsumeSequence() returns (s: Sequence)
      ensures s == currentConsumerSequence
    {
      s := currentConsumerSequence;
    }
  }
}
