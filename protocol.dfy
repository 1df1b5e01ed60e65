/**
  The producer and a blocking consumer running against each other, one step
  at a time. A pure state machine over the three cursors shows that the
  producer never reuses a slot the consumer has not passed and that the
  consumer handles 0, 1, 2, ... in order; a replay of the demo application
  drives the real classes through the same schedule.
 */
module Protocol {
  import opened Numerics
  import opened Sequences
  import opened Barriers
  import opened Sequencers
  import opened RingBuffers
  import opened Processors

  /** The producer's private state and the two shared cursors. */
  datatype Disruptor = Disruptor(producer: ClaimState, published: Long, consumed: Long)

  /** A freshly wired system: nothing claimed, published or consumed. */
  const Start: Disruptor := Disruptor(Fresh, -1, -1)

  /**
    One thread's next action: `next(n)`, `publish(index)`, or one iteration
    of the consumer, which uses the blocking barrier and so takes one event at a time.
   */
  datatype Step = ProducerClaim(n: Int) | ProducerPublish(index: Long) | ConsumerHandle

  /**
    The safety invariant: the cache is a lower bound on the consumer, the
    consumer is behind the published cursor, which is behind the claims, and
    no claimed sequence is more than one lap ahead of the cached bound.
   */
  ghost predicate Safe(d: Disruptor, size: Int)
  {
    && 0 < size
    && -1 <= d.producer.cachedConsumerSequence <= d.consumed <= d.published <= d.producer.nextValue
    && d.producer.nextValue - size <= d.producer.cachedConsumerSequence
  }

  /** A claim of `n` would pass the backpressure check with the consumer where it is. */
  predicate ClaimEnabled(d: Disruptor, size: Int, n: Int)
  {
    GateOpen(d.producer, n, size, d.consumed)
  }

  /** The barrier lets the consumer take its next index only once it is published. */
  predicate HandleEnabled(d: Disruptor)
  {
    d.consumed < d.published
  }

  /**
    One step; a thread whose step is not enabled is blocked and nothing
    changes. A publish stores whatever index it is given, as the sequencer does.
   */
  function Apply(d: Disruptor, size: Int, step: Step): Disruptor
  {
    match step
    case ProducerClaim(n) =>
      if ClaimEnabled(d, size, n) then d.(producer := Claim(d.producer, n, size, d.consumed)) else d
    case ProducerPublish(index) =>
      d.(published := index)
    case ConsumerHandle =>
      if HandleEnabled(d) then d.(consumed := d.consumed + 1) else d
  }

  /**
    The discipline the sequencer leaves to its caller: claim a positive number
    of sequences without running past `Long.MAX_VALUE`, and publish only an
    index that has been claimed and that the consumer has not passed.
   */
  predicate Allowed(d: Disruptor, step: Step)
  {
    match step
    case ProducerClaim(n) => 0 < n && d.producer.nextValue + n <= LONG_MAX
    case ProducerPublish(index) => d.consumed <= index <= d.producer.nextValue
    case ConsumerHandle => true
  }

  /** Every step of the schedule keeps to the caller discipline in the state it is taken in. */
  predicate Disciplined(d: Disruptor, size: Int, schedule: seq<Step>)
    decreases |schedule|
  {
    schedule == [] || (Allowed(d, schedule[0]) && Disciplined(Apply(d, size, schedule[0]), size, schedule[1..]))
  }

  /** The state after a whole schedule. */
  function Run(d: Disruptor, size: Int, schedule: seq<Step>): Disruptor
    decreases |schedule|
  {
    if schedule == [] then d else Run(Apply(d, size, schedule[0]), size, schedule[1..])
  }

  /** The sequence numbers the consumer handles during a schedule, in order. */
  function Handled(d: Disruptor, size: Int, schedule: seq<Step>): seq<Long>
    decreases |schedule|
  {
    if schedule == [] then []
    else
      (if schedule[0] == ConsumerHandle && HandleEnabled(d) then [d.consumed + 1] else []) +
      Handled(Apply(d, size, schedule[0]), size, schedule[1..])
  }

  lemma StartIsSafe(size: Int)
    requires 0 < size
    ensures Safe(Start, size)
  {
  }

  /**
    Backpressure is exact: a claim of `n` proceeds precisely when the
    consumer has reached the claimed sequence minus the ring size, whatever
    the cache holds.
   */
  lemma ClaimEnabledIff(d: Disruptor, size: Int, n: Int)
    requires Safe(d, size) && 0 < n && d.producer.nextValue + n <= LONG_MAX
    ensures ClaimEnabled(d, size, n) <==> d.consumed >= d.producer.nextValue + n - size
  {
    assert ClaimedSequence(d.producer, n) == d.producer.nextValue + n;
    assert WrapPoint(d.producer, n, size) == d.producer.nextValue + n - size;
  }

  /**
    Every step that keeps to the caller discipline keeps the invariant: a
    completed claim of `n` moves the claims on by exactly `n`, nothing else
    moves them, and the consumer never goes back.
   */
  lemma ApplyIsSafe(d: Disruptor, size: Int, step: Step)
    requires Safe(d, size) && Allowed(d, step)
    ensures Safe(Apply(d, size, step), size)
    ensures Apply(d, size, step).producer.nextValue ==
              d.producer.nextValue + (if step.ProducerClaim? && ClaimEnabled(d, size, step.n) then step.n else 0)
    ensures d.consumed <= Apply(d, size, step).consumed
  {
    if step.ProducerClaim? {
      assert ClaimedSequence(d.producer, step.n) == d.producer.nextValue + step.n;
      assert WrapPoint(d.producer, step.n, size) == d.producer.nextValue + step.n - size;
    }
  }

  /**
    The discipline is needed: publishing an index beyond the claims, or
    claiming a negative count, breaks the invariant in one step.
   */
  lemma UndisciplinedStepsBreakSafety()
    ensures Safe(Start, 16) && !Safe(Apply(Start, 16, ProducerPublish(5)), 16)
    ensures var d := Disruptor(ClaimState(0, -1), 0, -1);
            Safe(d, 16) && !Safe(Apply(d, 16, ProducerClaim(-1)), 16)
  {
    assert WrapPoint(ClaimState(0, -1), -1, 16) == -17;
  }

  /**
    No overwrite: the claimed sequences the consumer has not yet handled
    all sit in different slots, so the producer never writes into a slot
    whose event is still pending.
   */
  lemma PendingSequencesHaveDistinctSlots(d: Disruptor, size: Int, s1: int, s2: int)
    requires Safe(d, size)
    requires d.consumed < s1 < s2 <= d.producer.nextValue
    ensures s1 % size != s2 % size
  {
    var gap := s2 - s1;
    assert 0 < gap < size;
    var r := s1 % size;
    assert s1 == (s1 / size) * size + r;
    if r + gap < size {
      assert s2 == (s1 / size) * size + (r + gap);
      ModUnique(s2, size, s1 / size, r + gap);
    } else {
      assert s2 == (s1 / size + 1) * size + (r + gap - size);
      ModUnique(s2, size, s1 / size + 1, r + gap - size);
    }
  }

  /** A whole disciplined schedule keeps the invariant and moves the consumer forward only. */
  lemma {:induction false} RunIsSafe(d: Disruptor, size: Int, schedule: seq<Step>)
    requires Safe(d, size) && Disciplined(d, size, schedule)
    ensures Safe(Run(d, size, schedule), size)
    ensures d.consumed <= Run(d, size, schedule).consumed
    decreases |schedule|
  {
    if schedule != [] {
      ApplyIsSafe(d, size, schedule[0]);
      RunIsSafe(Apply(d, size, schedule[0]), size, schedule[1..]);
    }
  }

  /**
    The consumer handles the sequence numbers after its cursor one by one,
    with no gap and no repetition, and ends with its cursor on the last one.
   */
  lemma {:induction false} HandledInOrder(d: Disruptor, size: Int, schedule: seq<Step>)
    ensures var h := Handled(d, size, schedule);
            |h| == Run(d, size, schedule).consumed - d.consumed &&
            forall k :: 0 <= k < |h| ==> h[k] == d.consumed + 1 + k
    decreases |schedule|
  {
    if schedule != [] {
      var next := Apply(d, size, schedule[0]);
      HandledInOrder(next, size, schedule[1..]);
      var head: seq<Long> := if schedule[0] == ConsumerHandle && HandleEnabled(d) then [d.consumed + 1] else [];
      var tail := Handled(next, size, schedule[1..]);
      assert Handled(d, size, schedule) == head + tail;
      assert next.consumed == d.consumed + |head|;
    }
  }

  /** The demo's schedule: event i is claimed with `next()`, published as i and then handled. */
  function Rounds(n: nat): (schedule: seq<Step>)
    requires n < LONG_MAX
    ensures |schedule| == 3 * n
    ensures forall i :: 0 <= i < n ==>
              schedule[3 * i] == ProducerClaim(1) && schedule[3 * i + 1] == ProducerPublish(i) &&
              schedule[3 * i + 2] == ConsumerHandle
  {
    if n == 0 then [] else Rounds(n - 1) + [ProducerClaim(1), ProducerPublish(n - 1), ConsumerHandle]
  }

  lemma {:induction false} RunAppend(d: Disruptor, size: Int, a: seq<Step>, b: seq<Step>)
    ensures Run(d, size, a + b) == Run(Run(d, size, a), size, b)
    decreases |a|
  {
    if a == [] {
      assert a + b == b;
    } else {
      assert (a + b)[0] == a[0] && (a + b)[1..] == a[1..] + b;
      RunAppend(Apply(d, size, a[0]), size, a[1..], b);
    }
  }

  lemma {:induction false} DisciplinedAppend(d: Disruptor, size: Int, a: seq<Step>, b: seq<Step>)
    ensures Disciplined(d, size, a + b) <==> Disciplined(d, size, a) && Disciplined(Run(d, size, a), size, b)
    decreases |a|
  {
    if a == [] {
      assert a + b == b;
    } else {
      assert (a + b)[0] == a[0] && (a + b)[1..] == a[1..] + b;
      DisciplinedAppend(Apply(d, size, a[0]), size, a[1..], b);
    }
  }

  /** One demo round from a state with every cursor at i − 1: event i is claimed, published and handled. */
  lemma RoundStep(d: Disruptor, size: Int, i: Long)
    requires Safe(d, size) && i < LONG_MAX
    requires d.producer.nextValue == i - 1 && d.published == i - 1 && d.consumed == i - 1
    ensures Disciplined(d, size, [ProducerClaim(1), ProducerPublish(i), ConsumerHandle])
    ensures var r := Run(d, size, [ProducerClaim(1), ProducerPublish(i), ConsumerHandle]);
            r.producer.nextValue == i && r.published == i && r.consumed == i && Safe(r, size)
  {
    var round := [ProducerClaim(1), ProducerPublish(i), ConsumerHandle];
    ClaimEnabledIff(d, size, 1);
    ApplyIsSafe(d, size, round[0]);
    var d1 := Apply(d, size, round[0]);
    ApplyIsSafe(d1, size, round[1]);
    var d2 := Apply(d1, size, round[1]);
    ApplyIsSafe(d2, size, round[2]);
    var d3 := Apply(d2, size, round[2]);
    assert round[1..] == [ProducerPublish(i), ConsumerHandle];
    assert round[1..][1..] == [ConsumerHandle];
    assert round[1..][1..][1..] == [];
    assert Disciplined(d2, size, round[1..][1..]);
    assert Run(d2, size, round[1..][1..]) == d3;
  }

  /**
    On a ring of `size`, the demo's schedule keeps to the discipline, and
    after n rounds every cursor is at n − 1: no claim is ever held up, and
    every published event has been handled.
   */
  lemma {:induction false} RoundsRun(size: Int, n: nat)
    requires 0 < size && n < LONG_MAX
    ensures Disciplined(Start, size, Rounds(n))
    ensures var d := Run(Start, size, Rounds(n));
            d.producer.nextValue == n - 1 && d.published == n - 1 && d.consumed == n - 1
    ensures Safe(Run(Start, size, Rounds(n)), size)
  {
    if n == 0 {
      assert Rounds(n) == [];
    } else {
      RoundsRun(size, n - 1);
      var round := [ProducerClaim(1), ProducerPublish(n - 1), ConsumerHandle];
      assert Rounds(n) == Rounds(n - 1) + round;
      RunAppend(Start, size, Rounds(n - 1), round);
      DisciplinedAppend(Start, size, Rounds(n - 1), round);
      RoundStep(Run(Start, size, Rounds(n - 1)), size, n - 1);
    }
  }

  /**
    The demo application's end state, on the pure model: 100 events on a ring
    of 16 are handled as 0 .. 99, each once, leaving the consumer cursor at 99.
   */
  lemma DemoScheduleHandlesAll()
    ensures Run(Start, 16, Rounds(100)).consumed == 99
    ensures var h := Handled(Start, 16, Rounds(100));
            |h| == 100 && forall k :: 0 <= k < 100 ==> h[k] == k
  {
    RoundsRun(16, 100);
    HandledInOrder(Start, 16, Rounds(100));
  }

  /**
    How the demo's objects stand before round `i`: wired together, the slots
    holding 0 .. 15, every cursor at i − 1 and the handler called for 0 .. i − 1.
   */
  ghost predicate DemoWired(ring: RingBuffer<nat>, barrier: SequenceBarrier, processor: BatchEventProcessor<nat>,
                            consumer: Sequence, producer: Sequence, i: int)
    reads ring.singleProducerSequencer, ring.elementList, processor, producer, consumer
  {
    var sequencer := ring.singleProducerSequencer;
    && ring.Valid() && ring.ringBufferSize == 16
    && processor.ringBuffer == ring && processor.sequenceBarrier == barrier && processor.Valid()
    && sequencer.consumerSequence == consumer && processor.currentConsumerSequence == consumer
    && sequencer.currentProducerSequence == producer
    && barrier.currentProducerSequence == producer && producer != consumer
    && (forall j :: 0 <= j < 16 ==> ring.elementList[j] == j)
    && sequencer.nextValue == i - 1 && producer.value == i - 1 && consumer.value == i - 1
    && -1 <= sequencer.cachedConsumerSequence <= i - 1
    && processor.firstIndex == 0 && processor.nextConsumerIndex == i
    && (forall k :: 0 <= k < i ==> processor.calls[k].endOfBatch)
  }

  /**
    One round of the demo: claim the next sequence, look up its slot (which
    holds `i % 16`), publish it, let the consumer handle it.
   */
  method DemoRound(ring: RingBuffer<nat>, barrier: SequenceBarrier, processor: BatchEventProcessor<nat>,
                   consumer: Sequence, producer: Sequence, i: nat)
    requires i < 100 && DemoWired(ring, barrier, processor, consumer, producer, i)
    modifies ring.singleProducerSequencer, producer, processor, consumer
    ensures DemoWired(ring, barrier, processor, consumer, producer, i + 1)
  {
    var claimed := ring.Next();
    var index := claimed.value;
    var event := ring.Get(index);
    assert event == i % 16;
    ring.Publish(index);
    processor.RunIteration();
  }

  /**
    The demo application replayed through the classes: a ring of 16 filled
    with `i` by the factory, the consumer wired in, then 100 times a claim, a
    publish and one consumer iteration.
   */
  method DemoApplication() returns (handled: seq<HandlerCall<nat>>, consumerCursor: Long)
    ensures |handled| == 100
    ensures forall k :: 0 <= k < 100 ==> handled[k] == HandlerCall(k % 16, k, true)
    ensures consumerCursor == 99
  {
    var ring, barrier, processor, consumer, producer := DemoSetup();
    for i := 0 to 100
      invariant DemoWired(ring, barrier, processor, consumer, producer, i)
    {
      DemoRound(ring, barrier, processor, consumer, producer, i);
    }
    handled := processor.calls;
    consumerCursor := consumer.Get();
  }

  /**
    The demo's wiring: a single-producer ring of 16 over the factory `i`, a
    barrier over its cursor, a processor whose cursor is wired in as the
    consumer, and the start of `run()`.
   */
  method DemoSetup() returns (ring: RingBuffer<nat>, barrier: SequenceBarrier, processor: BatchEventProcessor<nat>,
                               consumer: Sequence, producer: Sequence)
    ensures fresh(ring.singleProducerSequencer) && fresh(producer) && fresh(processor) && fresh(consumer)
    ensures DemoWired(ring, barrier, processor, consumer, producer, 0)
  {
    CapacityExamples();
    var created := RingBuffer<nat>.CreateSingleProducer((i: nat) => i, 16);
    ring := created.value;
    barrier := ring.NewBarrier();
    processor := new BatchEventProcessor(ring, barrier);
    consumer := processor.GetCurrentConsumeSequence();
    ring.SetConsumerSequence(consumer);
    producer := ring.singleProducerSequencer.currentProducerSequence;
    processor.BeginRun();
  }
}
