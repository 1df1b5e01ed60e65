# disruptor-v1 in Dafny

This project models version 1 of a small single-producer/single-consumer
Disruptor. A ring of pre-allocated event slots is shared by one producer
and one consumer, and the two talk only through two `long` cursors
(`Sequence`):

- The producer claims sequence numbers with `next`/`next(n)`. It keeps a
  lazily refreshed bound on the consumer's cursor (`cachedConsumerSequence`),
  so that it never laps the consumer.
- The producer fills the slot `sequence & mask` and announces it with
  `publish`.
- The consumer (`BatchEventProcessor`) asks its barrier how far it may read.
  It hands every event up to that point to its handler, flagging the last
  one as the end of the batch, and then stores its own cursor.

Modules: five follow the source classes (`Barriers` covers two of them),
two are support, and one (`Protocol`) models the two threads together:

- `Numerics`: Java `int`/`long` and their wrap-around, `Integer.bitCount`,
  `&` on `long`, the `(int)` narrowing cast, and Java's truncating `%`.
- `Outcomes`: the exceptions the core can raise, as `Result`/`Option` values.
- `Sequences`: the `Sequence` cursor cell.
- `Barriers`: `SequenceBarrier` together with the blocking wait strategy,
  which is the only strategy the repository has.
- `Sequencers`: `SingleProducerSequencer`. The pure function `Claim` specifies
  what one claim does to the producer-private state, and it carries the
  no-overwrite lemmas.
- `RingBuffers`: `RingBuffer`, with the power-of-two check (`CapacityError`),
  the fill loop, and the slot mapping (`SlotIndex`, proved equal to the
  remainder modulo the size).
- `Processors`: one iteration of `run()`. The handler becomes a log of
  calls; `Batch` specifies that log and the lemmas about it.
- `Protocol`: a pure state machine over the producer state and both
  cursors, whose steps are `next(n)`, `publish(index)` and one blocking
  consumer iteration. It shows that:
  - every interleaving that keeps to the caller discipline keeps the safety
    invariant. Under that discipline claims are of `n > 0` and publishes are
    of an index already claimed and not yet passed by the consumer. The
    sequencer itself does not enforce this, and two stray steps that break
    the invariant are exhibited;
  - pending sequences never share a slot;
  - the consumer handles 0, 1, 2, ... in order.

  The module also replays the demo application through the classes.

A blocking call is modelled by the state in which it returns:

- The producer's back-pressure spin loop becomes the precondition
  `CanClaim`, meaning the loop ends at its first poll.
- The barrier's blocking wait becomes the precondition that the producer
  cursor has reached the requested index.

The processor's class comment (`BatchEventProcessor.java:13`) speaks of
fetching published events in batches. However, `BlockingWaitStrategy.waitFor`
returns the requested index (`BlockingWaitStrategy.java:52`), so with the
only wait strategy there is, every batch is a single event. The model follows
the code (`Barriers.SequenceBarrier.GetAvailableConsumerSequence`,
`Processors.BlockingBatchIsSingleEvent`). `ProcessAvailable` still models the
batch loop for every answer a barrier could give.

## Model

| member | source | states |
|---|---|---|
| Numerics.Wrap64 | src/main/java/com/sz/disruptor/sequence/SingleProducerSequencer.java:49-51 | The `long` result of an addition equals the exact sum modulo 2^64, and the exact sum whenever that fits in a `long`. |
| Numerics.Wrap32 | src/main/java/com/sz/disruptor/buffer/RingBuffer.java:55 | The `(int)` cast keeps the value modulo 2^32 and leaves any value already in `int` range unchanged. |
| Numerics.BitCount32 | src/main/java/com/sz/disruptor/buffer/RingBuffer.java:34 | `Integer.bitCount` counts the one-bits of the 32-bit two's-complement pattern: the number itself when non-negative, `x + 2^32` when negative. |
| Numerics.BitCountOneIffPowerOfTwo | src/main/java/com/sz/disruptor/buffer/RingBuffer.java:34 | A non-negative number has exactly one one-bit if and only if it is a power of two. |
| Numerics.BitCount32OneIff | src/main/java/com/sz/disruptor/buffer/RingBuffer.java:34 | `Integer.bitCount(x) == 1` holds exactly for the positive powers of two and for `Integer.MIN_VALUE`. |
| Numerics.AndLowMask | src/main/java/com/sz/disruptor/buffer/RingBuffer.java:17-19 | AND with a mask of k low one-bits equals the remainder modulo 2^k. |
| Numerics.LongAnd | src/main/java/com/sz/disruptor/buffer/RingBuffer.java:55 | `a & mask` on `long` with a non-negative mask lies between 0 and the mask. |
| Numerics.JavaRem | src/main/java/com/sz/disruptor/buffer/RingBuffer.java:16 | Java's `%` agrees with the mathematical remainder for non-negative operands and is never positive for a negative dividend. |
| RingBuffers.SlotIndex | src/main/java/com/sz/disruptor/buffer/RingBuffer.java:55 | The index `get` computes lies between 0 and the mask. |
| RingBuffers.SlotIndexIsMod | src/main/java/com/sz/disruptor/buffer/RingBuffer.java:53-56 | For a power-of-two size, `(int)(sequence & (size - 1))` is `sequence` modulo `size`, for every `long`, negative ones included. |
| RingBuffers.SlotIndexIsJavaRemainder | src/main/java/com/sz/disruptor/buffer/RingBuffer.java:16-19 | The mask agrees with Java's `%` for non-negative sequences, as the class comment says. It differs for negative sequences that are not multiples of the size. |
| RingBuffers.DocumentedSlotExamples | src/main/java/com/sz/disruptor/buffer/RingBuffer.java:16-19 | The comment's examples hold: 25 goes to slot 1 of 8 and slot 9 of 16. For −1, the mask gives 7 where `%` gives −1. |
| RingBuffers.CapacityError | src/main/java/com/sz/disruptor/buffer/RingBuffer.java:33-43 | No error exactly for positive powers of two. `NegativeArraySizeException` exactly for `Integer.MIN_VALUE`, which passes `bitCount`. `IllegalArgumentException` for every other size. |
| RingBuffers.CapacityExamples | src/main/java/com/sz/disruptor/buffer/RingBuffer.java:34-36 | A ring of 10 is refused with `IllegalArgumentException`; a ring of 16 is accepted. |
| RingBuffers.RingBuffer.Fill | src/main/java/com/sz/disruptor/buffer/RingBuffer.java:39-50 | After the check, the ring keeps the sequencer and gets a fresh array of the sequencer's size with mask `size - 1`. Slot i holds the factory's i-th instance. |
| RingBuffers.RingBuffer.Construct | src/main/java/com/sz/disruptor/buffer/RingBuffer.java:32-51 | The constructor fails with exactly the error `CapacityError` names, before allocating anything. Otherwise it yields a valid, factory-filled ring over the given sequencer. |
| RingBuffers.RingBuffer.CreateSingleProducer | src/main/java/com/sz/disruptor/buffer/RingBuffer.java:79-82 | Same error cases. On success: a fresh sequencer of the requested size, its cursor at −1, no consumer wired, nothing claimed. |
| RingBuffers.RingBuffer.Get | src/main/java/com/sz/disruptor/buffer/RingBuffer.java:53-56 | Returns the slot at `sequence` modulo the ring size. |
| RingBuffers.WrappedLapSameRemainder | src/main/java/com/sz/disruptor/buffer/RingBuffer.java:53-56 | Adding the ring size with `long` wrap-around keeps the remainder modulo a power-of-two size, for every `long`. |
| RingBuffers.RingBuffer.GetIsPeriodic | src/main/java/com/sz/disruptor/buffer/RingBuffer.java:53-56 | For every `long`, the sequence one lap later, computed with Java's wrapping `+`, reads the same slot. Without overflow that is the plain `sequence + size`. |
| RingBuffers.RingBuffer.Next | src/main/java/com/sz/disruptor/buffer/RingBuffer.java:59-61 | Delegates to the sequencer's `next()` with the same result and new state, and leaves the slots untouched. |
| RingBuffers.RingBuffer.NextN | src/main/java/com/sz/disruptor/buffer/RingBuffer.java:63-65 | The same for `next(n)`. |
| RingBuffers.RingBuffer.Publish | src/main/java/com/sz/disruptor/buffer/RingBuffer.java:67-69 | The producer cursor becomes the index. Claims and slots are unchanged. |
| RingBuffers.RingBuffer.SetConsumerSequence | src/main/java/com/sz/disruptor/buffer/RingBuffer.java:71-73 | Wires the consumer cursor into the sequencer, `null` included, and changes nothing else. |
| RingBuffers.RingBuffer.NewBarrier | src/main/java/com/sz/disruptor/buffer/RingBuffer.java:75-77 | Returns a new barrier over the producer's cursor. |
| Sequencers.Claim | src/main/java/com/sz/disruptor/sequence/SingleProducerSequencer.java:49-69 | A completed claim of n sets `nextValue` to the claimed sequence and never leaves the wrap point above the new cache. The cache only moves forward, only to the value read from the consumer, and only when the old cache was too stale. |
| Sequencers.ClaimNoOverwrite | src/main/java/com/sz/disruptor/sequence/SingleProducerSequencer.java:49-69 | Without overflow, the claim returns `nextValue + n`, and that value minus the ring size is at most the consumer bound. So the slot handed out was last used by a sequence the consumer has passed. |
| Sequencers.ClaimKeepsCacheBelowConsumer | src/main/java/com/sz/disruptor/sequence/SingleProducerSequencer.java:56-68 | If the cache was at most the consumer's cursor, it still is after the claim. |
| Sequencers.ClaimIgnoresConsumerWhenCacheSuffices | src/main/java/com/sz/disruptor/sequence/SingleProducerSequencer.java:54-56 | When the cached bound suffices, the claim does not depend on the consumer's cursor at all. |
| Sequencers.FirstLap | src/main/java/com/sz/disruptor/sequence/SingleProducerSequencer.java:28-71 | After `count <= size` single claims from a fresh sequencer, `nextValue` is `count - 1` and the cache is still −1. |
| Sequencers.FirstLapNeverReadsConsumer | src/main/java/com/sz/disruptor/sequence/SingleProducerSequencer.java:47-71 | The first `size` single claims never read the consumer. Together they return 0, 1, 2, ... in turn. |
| Sequencers.SingleProducerSequencer.constructor | src/main/java/com/sz/disruptor/sequence/SingleProducerSequencer.java:17-36 | Keeps the size. The producer cursor is fresh at −1, no consumer is wired, and `nextValue` and the cache are both −1. |
| Sequencers.SingleProducerSequencer.CanClaim | src/main/java/com/sz/disruptor/sequence/SingleProducerSequencer.java:56-62 | The state in which the back-pressure poll loop ends at once. A claim whose cached bound suffices never enters the loop. |
| Sequencers.SingleProducerSequencer.Next | src/main/java/com/sz/disruptor/sequence/SingleProducerSequencer.java:38-40 | Exactly `next(1)`. |
| Sequencers.SingleProducerSequencer.NextN | src/main/java/com/sz/disruptor/sequence/SingleProducerSequencer.java:47-71 | If the cache is too stale and no consumer is wired, the call is a `NullPointerException` and the state is unchanged. Otherwise it returns the (wrapping) `nextValue + n`, and the state moves as `Claim` says with the consumer value it read. |
| Sequencers.SingleProducerSequencer.Publish | src/main/java/com/sz/disruptor/sequence/SingleProducerSequencer.java:73-81 | The producer cursor becomes the index, as given and unordered. The claim state is unchanged. |
| Sequencers.SingleProducerSequencer.NewBarrier | src/main/java/com/sz/disruptor/sequence/SingleProducerSequencer.java:83-85 | A fresh barrier over this producer's cursor. |
| Sequencers.SingleProducerSequencer.SetConsumerSequence | src/main/java/com/sz/disruptor/sequence/SingleProducerSequencer.java:87-89 | The consumer cursor is wired in, or unwired by `null`, and the claim state is unchanged. |
| Sequencers.SingleProducerSequencer.GetRingBufferSize | src/main/java/com/sz/disruptor/sequence/SingleProducerSequencer.java:91-93 | Returns the size given at construction. |
| Sequences.Sequence.constructor | src/main/java/com/sz/disruptor/sequence/Sequence.java:41-42 | A new cursor holds −1, from the field's initialiser. |
| Sequences.Sequence.WithValue | src/main/java/com/sz/disruptor/sequence/Sequence.java:44-46 | A new cursor holds the given value. |
| Sequences.Sequence.Get | src/main/java/com/sz/disruptor/sequence/Sequence.java:48-50 | Returns the stored value. |
| Sequences.Sequence.Set | src/main/java/com/sz/disruptor/sequence/Sequence.java:52-54 | The stored value becomes the argument. |
| Sequences.Sequence.LazySet | src/main/java/com/sz/disruptor/sequence/Sequence.java:59-61 | The stored value becomes the argument. |
| Barriers.SequenceBarrier.constructor | src/main/java/com/sz/disruptor/barrier/SequenceBarrier.java:18-21 | Keeps the producer cursor it is given. |
| Barriers.SequenceBarrier.GetAvailableConsumerSequence | src/main/java/com/sz/disruptor/strategy/BlockingWaitStrategy.java:36-53 | Returns once the producer cursor has reached the requested index, and returns that index, which is therefore at most the cursor. |
| Processors.Batch | src/main/java/com/sz/disruptor/processor/BatchEventProcessor.java:41-46 | The handler calls of one pass of the inner loop: one call per index from `next` to `available`, and none when `available < next`. |
| Processors.BatchUnfold | src/main/java/com/sz/disruptor/processor/BatchEventProcessor.java:41-45 | A non-empty pass starts with the call for `next`, with its slot and the flag for `next == available`, and continues from `next + 1`. |
| Processors.BatchAt | src/main/java/com/sz/disruptor/processor/BatchEventProcessor.java:41-46 | The k-th call gets index `next + k`, that index's slot, and an end-of-batch flag that is set exactly when `next + k == available`. |
| Processors.BatchEndsOnlyAtLast | src/main/java/com/sz/disruptor/processor/BatchEventProcessor.java:44 | In a non-empty batch, the last call and only the last call carries the end-of-batch flag, and its index is `available`. |
| Processors.ConsecutiveBatchesAreContiguous | src/main/java/com/sz/disruptor/processor/BatchEventProcessor.java:39-47 | Two batches, the second starting after the first's end, cover every index of the joined range once, in order. |
| Processors.BlockingBatchIsSingleEvent | src/main/java/com/sz/disruptor/processor/BatchEventProcessor.java:40-46 | When the barrier answers with the requested index, the batch is that one event with the end-of-batch flag set. |
| Processors.BatchEventProcessor.constructor | src/main/java/com/sz/disruptor/processor/BatchEventProcessor.java:19-33 | Keeps the ring and the barrier. The consumer cursor is a fresh cell at −1. |
| Processors.BatchEventProcessor.BeginRun | src/main/java/com/sz/disruptor/processor/BatchEventProcessor.java:37 | `run()` starts one past the stored cursor, with `long` wrap-around. |
| Processors.BatchEventProcessor.ProcessAvailable | src/main/java/com/sz/disruptor/processor/BatchEventProcessor.java:41-47 | For any barrier answer `available`, the handler calls appended are exactly `Batch(slots, next, available)`. The next index becomes `available + 1`, or stays put if `available` is behind. The consumer cursor is stored as `available` whatever it was. The index-by-index call log invariant is kept. |
| Processors.BatchEventProcessor.RunIteration | src/main/java/com/sz/disruptor/processor/BatchEventProcessor.java:40-47 | With the blocking barrier, one iteration hands exactly the next index's slot to the handler, with the end-of-batch flag set. It then advances by one and stores the cursor at that index. |
| Processors.BatchEventProcessor.GetCurrentConsumeSequence | src/main/java/com/sz/disruptor/processor/BatchEventProcessor.java:53-55 | Returns the consumer's own cursor cell. |
| Protocol.StartIsSafe | src/main/java/com/sz/disruptor/sequence/SingleProducerSequencer.java:28-31 | The freshly wired system, with every cursor and the cache at −1, satisfies the safety invariant. |
| Protocol.ClaimEnabledIff | src/main/java/com/sz/disruptor/sequence/SingleProducerSequencer.java:49-62 | Under the invariant, a claim of any `n > 0` that does not overflow proceeds exactly when the consumer is at least the claimed sequence minus the ring size, whatever the cache holds. |
| Protocol.ApplyIsSafe | src/main/java/com/sz/disruptor/sequence/SingleProducerSequencer.java:47-81 | Every step that keeps to the caller discipline keeps the invariant, whether a `next(n)`, a `publish(index)` or a consumer step. A completed claim of n moves the claims on by exactly n and nothing else moves them. The consumer never goes back. |
| Protocol.PendingSequencesHaveDistinctSlots | src/main/java/com/sz/disruptor/sequence/SingleProducerSequencer.java:49-62 | Under the invariant, any two claimed but unhandled sequences map to different slots, so the producer never overwrites a pending event. |
| Protocol.UndisciplinedStepsBreakSafety | src/main/java/com/sz/disruptor/sequence/SingleProducerSequencer.java:47-77 | The discipline is needed. From a safe state, publishing an index nobody has claimed, or claiming a negative count, breaks the invariant in one step. |
| Protocol.RunIsSafe | src/main/java/com/sz/disruptor/sequence/SingleProducerSequencer.java:47-81 | Any schedule whose every step keeps to the discipline keeps the invariant and moves the consumer forward only. |
| Protocol.HandledInOrder | src/main/java/com/sz/disruptor/processor/BatchEventProcessor.java:37-47 | Under any schedule, the consumer handles the indices after its cursor one by one, with no gap and no repeat, and its cursor ends on the last one handled. |
| Protocol.Rounds | src/main/java/com/sz/disruptor/DisruptorV1Application.java:30-40 | The demo's schedule has 3n steps for n rounds. Round i is `next()`, then `publish(i)`, then a consumer step. |
| Protocol.RoundStep | src/main/java/com/sz/disruptor/DisruptorV1Application.java:31-36 | From a safe state with every cursor at i − 1, one round keeps to the discipline and leaves every cursor at i, still safe. |
| Protocol.RoundsRun | src/main/java/com/sz/disruptor/DisruptorV1Application.java:30-40 | The demo's schedule keeps to the discipline. After n rounds, the claims, the producer cursor and the consumer cursor are all at n − 1, and the invariant holds. |
| Protocol.DemoScheduleHandlesAll | src/main/java/com/sz/disruptor/DisruptorV1Application.java:14-40 | On a ring of 16, the demo's 100 rounds handle exactly 0 .. 99 in order and leave the consumer at 99. |
| Protocol.DemoRound | src/main/java/com/sz/disruptor/DisruptorV1Application.java:31-36 | One round on the classes takes the wired system from "everything at i − 1" to "everything at i". |
| Protocol.DemoSetup | src/main/java/com/sz/disruptor/DisruptorV1Application.java:15-23 | The demo's wiring leaves a fresh ring of 16 with slot j holding j, the processor's cursor wired in as the consumer, and every cursor at −1. |
| Protocol.DemoApplication | src/main/java/com/sz/disruptor/DisruptorV1Application.java:14-40 | Driving the classes as the demo does, the handler receives 100 calls, call k being slot `k % 16`, index k, end of batch. The consumer cursor ends at 99. |

## Left out

- Memory ordering: `volatile`, `lazySet`'s `putOrderedLong` and the `Unsafe` set-up have no sequential meaning. `Set` and `LazySet` are both a plain store.
- Sequencers.SingleProducerSequencer.NextN: the `parkNanos` back-pressure loop is not modelled as a loop. The precondition `CanClaim` requires that the consumer already lets the claim through, which is the state in which the loop ends. A claim that would spin forever is outside the model.
- Barriers.SequenceBarrier.GetAvailableConsumerSequence: the lock and condition wait is replaced by the requirement that the producer cursor has reached the requested index. An `InterruptedException` while waiting, rethrown as `RuntimeException`, is not modelled.
- `BlockingWaitStrategy.signalWhenBlocking`: waking the consumer from `publish` has no sequential effect and is left out. The `WaitStrategy` interface is not modelled separately, because the blocking strategy is its only implementation.
- Processors.BatchEventProcessor.ProcessAvailable: requires `available < Long.MAX_VALUE`. At `Long.MAX_VALUE` the Java loop wraps its index and never ends, which a terminating method cannot express.
- Processors.BatchEventProcessor.RunIteration: `run()`'s endless `while (true)` is modelled as `BeginRun` plus repeated calls of one iteration. The `System.out.println` after each batch is left out.
- Event payloads: `EventModelFactory` is a function from the call number to an instance, and `EventHandler.consume` becomes the log `calls`. The producer's in-place updates of slot objects (`setMessage`, `setPrice`) are not modelled.
- RingBuffers.RingBuffer.Publish: the `Long` parameter is boxed in Java, so passing `null` would throw. The model takes a plain `long`.
- Threads: `Thread.start`, `Thread.sleep` and the real interleaving of the two threads are not modelled. `Protocol` explores interleavings only at the granularity of whole `next`, `publish` and consumer steps, and `DemoApplication` replays one such interleaving.
- Protocol.ApplyIsSafe, Protocol.RunIsSafe: proved only for steps that keep to a caller discipline the sequencer does not enforce. Every publish is of an index already claimed and not yet passed by the consumer. Every claim is of `n > 0` and does not run the claim counter past `Long.MAX_VALUE`. `Protocol.UndisciplinedStepsBreakSafety` shows the invariant fails without this discipline. Wrap-around of the claim counter is modelled in `Claim`, but the safety invariant is only proved without it.
