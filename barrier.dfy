/**
  The consumer-side view of the producer's progress. The barrier pairs the
  producer's published cursor with a wait strategy; only the blocking
  strategy exists, so its waiting is modelled here by what it guarantees on
  return: it comes back once the cursor has reached the requested index and
  hands back the requested index itself, never the cursor it observed.
 */
module Barriers {
  import opened Numerics
  import opened Sequences

  class SequenceBarrier {
    const currentProducerSequence: Sequence

    constructor (currentProducerSequence: Sequence)
      ensures this.currentProducerSequence == currentProducerSequence
    {
      this.currentProducerSequence := currentProducerSequence;
    }

    /**
      The blocking wait, sequentially: the loop on the condition variable
      only ends when the producer cursor is at least `currentConsumerIndex`,
      so a call that returns is one made in such a state.
     */
    method GetAvailableConsumerSequence(currentConsumerIndex: Long) returns (available: Long)
      requires currentProducerSequence.value >= currentConsumerIndex
      ensures available == currentConsumerIndex
      ensures available <= currentProducerSequence.value
    {
      available := currentConsumerIndex;
    }
  }
}
