/**
  The single-producer claim/publish protocol. The producer reserves
  sequence numbers with `next`, keeping a lazily refreshed lower bound on the
  consumer's progress so that it never laps the consumer, and announces
  filled slots with `publish`.
 */
module Sequencers {
  import opened Numerics
  import opened Outcomes
  import opened Sequences
  import opened Barriers

  /** The producer-private part of the sequencer's state. */
  datatype ClaimState = ClaimState(nextValue: Long, cachedConsumerSequence: Long)

  /** The state of a fresh sequencer: nothing claimed, nothing known of the consumer. */
  const Fresh: ClaimState := ClaimState(-1, -1)

  /** The highest sequence number a claim of `n` reserves. */
  function ClaimedSequence(st: ClaimState, n: Int): Long
  {
    Wrap64(st.nextValue + n)
  }

  /** The sequence number whose slot the claim would reuse: one ring length back. */
  function WrapPoint(st: ClaimState, n: Int, size: Int): Long
  {
    Wrap64(ClaimedSequence(st, n) - size)
  }

  /** Whether the cached consumer bound is too stale for the claim, so the consumer must be read. */
  predicate MustReadConsumer(st: ClaimState, n: Int, size: Int)
  {
    WrapPoint(st, n, size) > st.cachedConsumerSequence
  }

  /**
    The consumer value the backpressure loop observes lets the claim go
    ahead: either the consumer is not read at all, or it is past the wrap point.
   */
  predicate GateOpen(st: ClaimState, n: Int, size: Int, observed: Long)
  {
    MustReadConsumer(st, n, size) ==> observed >= WrapPoint(st, n, size)
  }

  /**
    The effect of a claim of `n` that completes, the consumer being seen at
    `observed` when it is read.
   */
  function Claim(st: ClaimState, n: Int, size: Int, observed: Long): (r: ClaimState)
    requires GateOpen(st, n, size, observed)
    ensures r.nextValue == ClaimedSequence(st, n)
    // no overwrite: the slot handed out was last used by a sequence the consumer has passed
    ensures WrapPoint(st, n, size) <= r.cachedConsumerSequence
    // the cache only ever moves forward, and only ever to a value the consumer had
    ensures st.cachedConsumerSequence <= r.cachedConsumerSequence
    ensures r.cachedConsumerSequence == st.cachedConsumerSequence || r.cachedConsumerSequence == observed
    ensures !MustReadConsumer(st, n, size) ==> r.cachedConsumerSequence == st.cachedConsumerSequence
  {
    ClaimState(ClaimedSequence(st, n),
               if MustReadConsumer(st, n, size) then observed else st.cachedConsumerSequence)
  }

  /** Without overflow, the claimed sequence minus the ring size is at most the new cached bound. */
  lemma ClaimNoOverwrite(st: ClaimState, n: Int, size: Int, observed: Long)
    requires GateOpen(st, n, size, observed)
    requires LONG_MIN <= st.nextValue + n <= LONG_MAX
    requires LONG_MIN <= st.nextValue + n - size <= LONG_MAX
    ensures Claim(st, n, size, observed).nextValue == st.nextValue + n
    ensures Claim(st, n, size, observed).nextValue - size <= Claim(st, n, size, observed).cachedConsumerSequence
  {
    assert ClaimedSequence(st, n) == st.nextValue + n;
    assert WrapPoint(st, n, size) == st.nextValue + n - size;
  }

  /**
    If the cache was a lower bound on the consumer and the consumer has not
    gone back, the cache after the claim is still a lower bound.
   */
  lemma ClaimKeepsCacheBelowConsumer(st: ClaimState, n: Int, size: Int, observed: Long)
    requires GateOpen(st, n, size, observed)
    requires st.cachedConsumerSequence <= observed
    ensures st.cachedConsumerSequence <= Claim(st, n, size, observed).cachedConsumerSequence <= observed
  {
  }

  /** A claim that need not read the consumer does not depend on the consumer at all. */
  lemma ClaimIgnoresConsumerWhenCacheSuffices(st: ClaimState, n: Int, size: Int, observed1: Long, observed2: Long)
    requires !MustReadConsumer(st, n, size)
    ensures Claim(st, n, size, observed1) == Claim(st, n, size, observed2)
  {
  }

  /**
    The state after `count` single claims from a fresh sequencer on a ring of
    `size`, as long as no claim has to read the consumer.
   */
  function FirstLap(count: nat, size: Int): (st: ClaimState)
    requires 0 < size && count <= size
    ensures st == ClaimState(count - 1, -1)
    decreases count
  {
    if count == 0 then Fresh
    else
      var prev := FirstLap(count - 1, size);
      Claim(prev, 1, size, prev.cachedConsumerSequence)
  }

  /**
    The first `size` single claims never consult the consumer and return
    0, 1, 2, ... in turn.
   */
  lemma {:induction false} FirstLapNeverReadsConsumer(count: nat, size: Int)
    requires 0 < size && count < size
    ensures !MustReadConsumer(FirstLap(count, size), 1, size)
    ensures ClaimedSequence(FirstLap(count, size), 1) == count
  {
    assert FirstLap(count, size) == ClaimState(count - 1, -1);
    assert WrapPoint(FirstLap(count, size), 1, size) == count - size;
  }

  class SingleProducerSequencer {
    const ringBufferSize: Int
    /** The highest published sequence, read by the consumer through its barrier. */
    const currentProducerSequence: Sequence
    /** The consumer's cursor, wired in after construction. */
    var consumerSequence: Sequence?
    /** The highest sequence claimed so far. */
    var nextValue: Long
    /** A lower bound on the consumer's cursor, refreshed only when a claim needs it. */
    var cachedConsumerSequence: Long

    function State(): ClaimState
      reads this
    {
      ClaimState(nextValue, cachedConsumerSequence)
    }

    /** The consumer value a backpressure read would see. */
    function ObservedConsumer(): Long
      reads this, consumerSequence
    {
      if consumerSequence == null then -1 else consumerSequence.value
    }

    /**
      The backpressure wait of `next(n)` would end at its first poll:
      sequentially, nothing else can move the consumer while the producer spins.
     */
    predicate CanClaim(n: Int): (ok: bool)
      reads this, consumerSequence
      // a claim whose cached bound suffices never enters the wait
      ensures !MustReadConsumer(State(), n, ringBufferSize) ==> ok
    {
      consumerSequence != null ==> GateOpen(State(), n, ringBufferSize, consumerSequence.value)
    }

    constructor (ringBufferSize: Int)
      ensures this.ringBufferSize == ringBufferSize
      ensures fresh(currentProducerSequence) && currentProducerSequence.value == -1
      ensures consumerSequence == null
      ensures State() == Fresh
    {
      this.ringBufferSize := ringBufferSize;
      currentProducerSequence := new Sequence();
      consumerSequence := null;
      nextValue := -1;
      cachedConsumerSequence := -1;
    }

    /** Claims one sequence number, exactly as `NextN(1)`. */
    method Next() returns (r: Result<Long>)
      requires CanClaim(1)
      modifies this
      ensures consumerSequence == old(consumerSequence)
      ensures MustReadConsumer(old(State()), 1, ringBufferSize) && consumerSequence == null ==>
                r == Err(NullPointer) && State() == old(State())
      ensures !(MustReadConsumer(old(State()), 1, ringBufferSize) && consumerSequence == null) ==>
                r == Ok(ClaimedSequence(old(State()), 1)) &&
                State() == Claim(old(State()), 1, ringBufferSize, ObservedConsumer())
    {
      r := NextN(1);
    }

    /**
      Claims `n` sequence numbers and returns the highest of them. When the
      cached consumer bound is too stale, the consumer's cursor is read (an
      unset cursor is a `NullPointerException`) and becomes the new bound.
     */
    method NextN(n: Int) returns (r: Result<Long>)
      requires CanClaim(n)
      modifies this
      ensures consumerSequence == old(consumerSequence)
      ensures MustReadConsumer(old(State()), n, ringBufferSize) && consumerSequence == null ==>
                r == Err(NullPointer) && State() == old(State())
      ensures !(MustReadConsumer(old(State()), n, ringBufferSize) && consumerSequence == null) ==>
                r == Ok(ClaimedSequence(old(State()), n)) &&
                State() == Claim(old(State()), n, ringBufferSize, ObservedConsumer())
    {
      var nextProducerSequence := Wrap64(nextValue + n);
      var wrapPoint := Wrap64(nextProducerSequence - ringBufferSize);
      var cachedGatingSequence := cachedConsumerSequence;
      if wrapPoint > cachedGatingSequence {
        if consumerSequence == null {
          return Err(NullPointer);
        }
        var minSequence := consumerSequence.Get();
        cachedConsumerSequence := minSequence;
      }
      nextValue := nextProducerSequence;
      r := Ok(nextProducerSequence);
    }

    /**
      Stores `publishIndex` as the producer cursor. Nothing orders the stores,
      so publishing a lower index lowers the cursor.
     */
    method Publish(publishIndex: Long)
      modifies currentProducerSequence
      ensures currentProducerSequence.value == publishIndex
      ensures State() == old(State()) && consumerSequence == old(consumerSequence)
    {
      currentProducerSequence.LazySet(publishIndex);
    }

    /** Wires in the consumer's cursor; `null` unwires it again, as Java allows. */
    method SetConsumerSequence(consumerSequence: Sequence?)
      modifies this
      ensures this.consumerSequence == consumerSequence
      ensures State() == old(State())
    {
      this.consumerSequence := consumerSequence;
    }

    /** A barrier over this producer's published cursor. */
    method NewBarrier() returns (barrier: SequenceBarrier)
      ensures fresh(barrier) && barrier.currentProducerSequence == currentProducerSequence
    {
      barrier := new SequenceBarrier(currentProducerSequence);
    }

    method GetRingBufferSize() returns (size: Int)
      ensures size == ringBufferSize
    {
      size := ringBufferSize;
    }
  }
}
