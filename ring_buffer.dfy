/**
  The pre-allocated slot array. Its size must be a power of two so that a
  sequence number maps to its slot with `sequence & mask` instead of `%`;
  every slot is filled once from the factory at construction and never
  replaced afterwards (only the objects in it are mutated, by their users).
 */
module RingBuffers {
  import opened Numerics
  import opened Outcomes
  import opened Sequences
  import opened Barriers
  import opened Sequencers

  /**
    The slot index `get` computes: the `long` AND of the sequence with the
    (widened) `int` mask, narrowed back to `int`.
   */
  function SlotIndex(sequence: Long, mask: Int): (index: Int)
    ensures 0 <= mask ==> 0 <= index <= mask
  {
    Wrap32(LongAnd(sequence, mask))
  }

  /**
    For a power-of-two size, masking with `size - 1` is the (Euclidean)
    remainder modulo `size`, for every `long`, negative ones included.
   */
  lemma SlotIndexIsMod(sequence: Long, size: Int)
    requires 0 < size && IsPowerOfTwo(size)
    ensures SlotIndex(sequence, size - 1) == sequence % size
  {
    Pow2Constants();
    var k := PowerOfTwoBelow(size, 31);
    if k < 64 {
      Pow2StrictlyIncreasing(k, 64);
    }
    var u := Unsigned64(sequence);
    assert Unsigned64(size - 1) == size - 1;
    AndLowMask(u, k);
    assert And(u, size - 1) == u % size;
    UnsignedModPowerOfTwo(sequence, k);
    assert LongAnd(sequence, size - 1) == sequence % size;
  }

  /** Reading the 64-bit pattern does not change the remainder modulo a power of two below 2^64. */
  lemma UnsignedModPowerOfTwo(x: Long, k: nat)
    requires k <= 30
    ensures Unsigned64(x) % Pow2(k) == x % Pow2(k)
  {
    if x < 0 {
      Pow2Constants();
      Pow2Add(64 - k, k);
      ModAddMultiple(x, Pow2(64 - k), Pow2(k));
    }
  }

  /**
    For a non-negative sequence the mask agrees with Java's own `%`, as the
    class comment claims; for a negative one it does not (`-1 & 7` is 7, `-1 % 8` is −1).
   */
  lemma SlotIndexIsJavaRemainder(sequence: Long, size: Int)
    requires 0 < size && IsPowerOfTwo(size)
    ensures 0 <= sequence ==> SlotIndex(sequence, size - 1) == JavaRem(sequence, size)
    ensures sequence < 0 && sequence % size != 0 ==> SlotIndex(sequence, size - 1) != JavaRem(sequence, size)
  {
    SlotIndexIsMod(sequence, size);
  }

  /** The examples of the class comment: sequence 25 lands in slot 1 of 8 and in slot 9 of 16. */
  lemma DocumentedSlotExamples()
    ensures SlotIndex(25, 7) == 1 && SlotIndex(25, 15) == 9
    ensures SlotIndex(-1, 7) == 7 && JavaRem(-1, 8) == -1
  {
    assert Pow2(3) == 8;
    Pow2Add(3, 1);
    SlotIndexIsMod(25, 8);
    SlotIndexIsMod(25, 16);
    SlotIndexIsMod(-1, 8);
  }

  /**
    The constructor's size check: `Integer.bitCount(size) != 1` is an
    `IllegalArgumentException`; `Integer.MIN_VALUE` passes it and then fails
    allocating the array.
   */
  function CapacityError(size: Int): (e: Option<Failure>)
    ensures e == None <==> 0 < size && IsPowerOfTwo(size)
    ensures e == Some(NegativeArraySize) <==> size == INT_MIN
    ensures e.Some? && e.value.IllegalArgument? <==> size != INT_MIN && !(0 < size && IsPowerOfTwo(size))
  {
    BitCount32OneIff(size);
    if BitCount32(size) != 1 then Some(IllegalArgument("Buffer size must be a power of 2"))
    else if size < 0 then Some(NegativeArraySize)
    else None
  }

  /** A ring of 10 is refused, a ring of 16 accepted. */
  lemma CapacityExamples()
    ensures CapacityError(10).Some? && CapacityError(10).value.IllegalArgument?
    ensures CapacityError(16) == None
  {
    Pow2Add(2, 2);
    assert Pow2(4) == 16;
    forall k: nat ensures Pow2(k) != 10 {
      if k >= 4 {
        if k > 4 {
          Pow2StrictlyIncreasing(4, k);
        }
      } else {
        assert Pow2(3) == 8;
        if k < 3 {
          Pow2StrictlyIncreasing(k, 3);
        }
      }
    }
  }

  /** An `int` power of two is one of Pow2(0) .. Pow2(30). */
  lemma PowerOfTwoBelowInt(size: Int) returns (k: nat)
    requires IsPowerOfTwo(size)
    ensures Pow2(k) == size && k <= 30
  {
    Pow2Constants();
    k := PowerOfTwoBelow(size, 31);
  }

  /** 2^k divides 2^64. */
  lemma PowerOfTwoDivides64(k: nat) returns (q: nat)
    requires k <= 64
    ensures 0 < q && Pow2(k) * q == Pow2(64)
  {
    var j: nat := 64 - k;
    Pow2Add(k, j);
    q := Pow2(j);
  }

  /** An `int` power of two divides 2^64, so it divides a lap of the `long` range. */
  lemma LapsIn64Bits(k: nat) returns (q: nat)
    requires k <= 30
    ensures 0 < q && q * Pow2(k) == TWO_64
  {
    q := PowerOfTwoDivides64(k);
    Pow2Constants();
  }

  /** Numbers congruent modulo `q * m` are congruent modulo `m`. */
  lemma CongruentModDivisor(x: int, r: int, q: int, m: int)
    requires 0 < q && 0 < m && (x - r) % (q * m) == 0
    ensures r % m == x % m
  {
    var c := (x - r) / (q * m);
    assert x - r == c * (q * m);
    assert r == x + (-(c * q)) * m;
    ModAddMultiple(x, -(c * q), m);
  }

  /** Adding one lap with `long` wrap-around keeps the remainder modulo a power-of-two size. */
  lemma WrappedLapSameRemainder(sequence: Long, size: Int)
    requires 0 < size && IsPowerOfTwo(size)
    ensures Wrap64(sequence + size) % size == sequence % size
  {
    var k := PowerOfTwoBelowInt(size);
    var q := LapsIn64Bits(k);
    var x := sequence + size;
    var r := Wrap64(x);
    assert (x - r) % (q * size) == 0;
    CongruentModDivisor(x, r, q, size);
    ModAddMultiple(sequence, 1, size);
  }

  class RingBuffer<T(0)> {
    const elementList: array<T>
    const singleProducerSequencer: SingleProducerSequencer
    const ringBufferSize: Int
    const mask: Int

    /** The construction-time facts, which nothing afterwards can change (all fields are `const`). */
    ghost predicate Valid()
    {
      && 0 < ringBufferSize && IsPowerOfTwo(ringBufferSize)
      && mask == ringBufferSize - 1
      && elementList.Length == ringBufferSize
      && singleProducerSequencer.ringBufferSize == ringBufferSize
    }

    /**
      Lines after the size check: keeps the sequencer and fills every slot,
      in index order, with the next instance from the factory; `factory(i)`
      is what the factory's i-th call returns.
     */
    constructor Fill(singleProducerSequencer: SingleProducerSequencer, factory: nat -> T)
      requires CapacityError(singleProducerSequencer.ringBufferSize) == None
      ensures Valid() && fresh(elementList)
      ensures this.singleProducerSequencer == singleProducerSequencer
      ensures ringBufferSize == singleProducerSequencer.ringBufferSize
      ensures forall i :: 0 <= i < elementList.Length ==> elementList[i] == factory(i)
    {
      var bufferSize := singleProducerSequencer.ringBufferSize;
      this.singleProducerSequencer := singleProducerSequencer;
      ringBufferSize := bufferSize;
      elementList := new T[bufferSize];
      mask := bufferSize - 1;
      new;
      for i := 0 to elementList.Length
        invariant forall j :: 0 <= j < i ==> elementList[j] == factory(j)
      {
        elementList[i] := factory(i);
      }
    }

    /**
      The Java constructor: refuses a size that is not a power of two before
      anything is allocated, otherwise builds the ring.
     */
    static method Construct(singleProducerSequencer: SingleProducerSequencer, factory: nat -> T)
      returns (r: Result<RingBuffer<T>>)
      ensures CapacityError(singleProducerSequencer.ringBufferSize).Some? ==>
                r == Err(CapacityError(singleProducerSequencer.ringBufferSize).value)
      ensures CapacityError(singleProducerSequencer.ringBufferSize) == None ==>
                && r.Ok? && r.value.Valid() && fresh(r.value.elementList)
                && r.value.singleProducerSequencer == singleProducerSequencer
                && forall i :: 0 <= i < r.value.elementList.Length ==> r.value.elementList[i] == factory(i)
    {
      var bufferSize := singleProducerSequencer.GetRingBufferSize();
      if BitCount32(bufferSize) != 1 {
        return Err(IllegalArgument("Buffer size must be a power of 2"));
      }
      if bufferSize < 0 {
        return Err(NegativeArraySize);
      }
      var ring := new RingBuffer.Fill(singleProducerSequencer, factory);
      r := Ok(ring);
    }

    /** A ring over a new single-producer sequencer of the given size. */
    static method CreateSingleProducer(factory: nat -> T, bufferSize: Int)
      returns (r: Result<RingBuffer<T>>)
      ensures CapacityError(bufferSize).Some? ==> r == Err(CapacityError(bufferSize).value)
      ensures CapacityError(bufferSize) == None ==>
                && r.Ok? && r.value.Valid() && r.value.ringBufferSize == bufferSize
                && fresh(r.value.elementList) && fresh(r.value.singleProducerSequencer)
                && fresh(r.value.singleProducerSequencer.currentProducerSequence)
                && r.value.singleProducerSequencer.currentProducerSequence.value == -1
                && r.value.singleProducerSequencer.consumerSequence == null
                && r.value.singleProducerSequencer.State() == Fresh
                && forall i :: 0 <= i < r.value.elementList.Length ==> r.value.elementList[i] == factory(i)
    {
      var sequencer := new SingleProducerSequencer(bufferSize);
      r := Construct(sequencer, factory);
    }

    /** The slot of `sequence`: its remainder modulo the ring size. */
    function Get(sequence: Long): (event: T)
      requires Valid()
      reads elementList
      ensures event == elementList[sequence % ringBufferSize]
    {
      SlotIndexIsMod(sequence, ringBufferSize);
      elementList[SlotIndex(sequence, mask)]
    }

    /**
      Sequences one lap apart share a slot, with the lap added as Java adds
      `long`s: even past `Long.MAX_VALUE`, the wrapped sum reads the same slot.
     */
    lemma GetIsPeriodic(sequence: Long)
      requires Valid()
      ensures Get(sequence) == Get(Wrap64(sequence + ringBufferSize))
      ensures sequence + ringBufferSize <= LONG_MAX ==> Get(sequence) == Get(sequence + ringBufferSize)
    {
      WrappedLapSameRemainder(sequence, ringBufferSize);
    }

    method Next() returns (r: Result<Long>)
      requires Valid() && singleProducerSequencer.CanClaim(1)
      modifies singleProducerSequencer
      ensures elementList[..] == old(elementList[..])
      ensures singleProducerSequencer.consumerSequence == old(singleProducerSequencer.consumerSequence)
      ensures MustReadConsumer(old(singleProducerSequencer.State()), 1, ringBufferSize) &&
              singleProducerSequencer.consumerSequence == null ==>
                r == Err(NullPointer) && singleProducerSequencer.State() == old(singleProducerSequencer.State())
      ensures !(MustReadConsumer(old(singleProducerSequencer.State()), 1, ringBufferSize) &&
                singleProducerSequencer.consumerSequence == null) ==>
                r == Ok(ClaimedSequence(old(singleProducerSequencer.State()), 1)) &&
                singleProducerSequencer.State() ==
                  Claim(old(singleProducerSequencer.State()), 1, ringBufferSize, singleProducerSequencer.ObservedConsumer())
    {
      r := singleProducerSequencer.Next();
    }

    method NextN(n: Int) returns (r: Result<Long>)
      requires Valid() && singleProducerSequencer.CanClaim(n)
      modifies singleProducerSequencer
      ensures elementList[..] == old(elementList[..])
      ensures singleProducerSequencer.consumerSequence == old(singleProducerSequencer.consumerSequence)
      ensures MustReadConsumer(old(singleProducerSequencer.State()), n, ringBufferSize) &&
              singleProducerSequencer.consumerSequence == null ==>
                r == Err(NullPointer) && singleProducerSequencer.State() == old(singleProducerSequencer.State())
      ensures !(MustReadConsumer(old(singleProducerSequencer.State()), n, ringBufferSize) &&
                singleProducerSequencer.consumerSequence == null) ==>
                r == Ok(ClaimedSequence(old(singleProducerSequencer.State()), n)) &&
                singleProducerSequencer.State() ==
                  Claim(old(singleProducerSequencer.State()), n, ringBufferSize, singleProducerSequencer.ObservedConsumer())
    {
      r := singleProducerSequencer.NextN(n);
    }

    method Publish(index: Long)
      modifies singleProducerSequencer.currentProducerSequence
      ensures elementList[..] == old(elementList[..])
      ensures singleProducerSequencer.currentProducerSequence.value == index
      ensures singleProducerSequencer.State() == old(singleProducerSequencer.State())
    {
      singleProducerSequencer.Publish(index);
    }

    method SetConsumerSequence(consumerSequence: Sequence?)
      modifies singleProducerSequencer
      ensures elementList[..] == old(elementList[..])
      ensures singleProducerSequencer.consumerSequence == consumerSequence
      ensures singleProducerSequencer.State() == old(singleProducerSequencer.State())
    {
      singleProducerSequencer.SetConsumerSequence(consumerSequence);
    }

    method NewBarrier() returns (barrier: SequenceBarrier)
      ensures fresh(barrier)
      ensures barrier.currentProducerSequence == singleProducerSequencer.currentProducerSequence
    {
      barrier := singleProducerSequencer.NewBarrier();
    }
  }
}
