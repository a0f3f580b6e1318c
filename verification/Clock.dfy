/** 32-bit counters that wrap around, compared by the sign of their difference. */
module Clock {
  import opened Bytes

  const HALF := 0x8000_0000

  // The deadline is now or in the past.
  predicate TimeReached(now: U32, deadline: U32) {
    Wrap32(now - deadline) < HALF
  }

  predicate SequenceAfter(sequence: U32, baseline: U32) {
    0 < Wrap32(sequence - baseline) < HALF
  }

  // Within half the range, the comparison is the one on the unwrapped instants.
  lemma ReachedInstant(now: nat, deadline: nat)
    requires now < deadline + HALF && deadline <= now + HALF
    ensures TimeReached(Wrap32(now), Wrap32(deadline)) <==> deadline <= now
  {
    var d := Wrap32(now) - Wrap32(deadline);
    assert (now - deadline - d) % 0x1_0000_0000 == 0;
    assert Wrap32(d) == Wrap32(now - deadline);
  }
}
