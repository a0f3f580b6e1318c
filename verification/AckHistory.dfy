/** The acknowledgement history of the radar driver: a ring of the last eight, each numbered by a
    32-bit counter that skips zero when it wraps. */
module AckHistory {
  import opened Bytes
  import opened Clock

  const CAPACITY := 8

  datatype Ack = Ack(command: Byte, result: U16)

  datatype AckEvent = AckEvent(sequence: U32, result: U16, command: Byte)

  // The counter after n acknowledgements.
  function Wire(n: nat): U32 {
    if n == 0 then 0 else (n - 1) % 0xFFFF_FFFF + 1
  }

  // One increment of the counter.
  function NextSequence(sequence: U32): U32 {
    var next := Wrap32(sequence + 1);
    if next == 0 then 1 else next
  }

  lemma WireCounts(n: nat)
    ensures Wire(n + 1) == NextSequence(Wire(n))
  {
    if n > 0 {
      var q, r := (n - 1) / 0xFFFF_FFFF, (n - 1) % 0xFFFF_FFFF;
      assert n == q * 0xFFFF_FFFF + (r + 1);
      if r + 1 == 0xFFFF_FFFF {
        assert n == (q + 1) * 0xFFFF_FFFF;
      }
    }
  }

  // The comparison of two counter values orders the acknowledgements themselves, as long as
  // fewer than half the range lie between them.
  lemma WireOrder(x: nat, m: nat)
    requires 0 < x && m <= x + CAPACITY && x < m + HALF - 1
    ensures SequenceAfter(Wire(x), Wire(m)) <==> x > m
  {
    var qx, rx := (x - 1) / 0xFFFF_FFFF, (x - 1) % 0xFFFF_FFFF;
    assert x - 1 == qx * 0xFFFF_FFFF + rx;
    if m > 0 {
      var qm, rm := (m - 1) / 0xFFFF_FFFF, (m - 1) % 0xFFFF_FFFF;
      assert m - 1 == qm * 0xFFFF_FFFF + rm;
      assert -1 <= qx - qm <= 1;
    } else {
      assert qx == 0;
    }
  }

  function Kept(n: nat): nat {
    if n < CAPACITY then n else CAPACITY
  }

  // What a snapshot shows after a history of acknowledgements: the last eight, oldest first.
  function Events(history: seq<Ack>): (events: seq<AckEvent>)
    ensures |events| == Kept(|history|)
  {
    var base := |history| - Kept(|history|);
    seq(Kept(|history|), i requires 0 <= i < Kept(|history|) =>
      AckEvent(Wire(base + i + 1), history[base + i].result, history[base + i].command))
  }

  lemma EventsGrow(history: seq<Ack>, a: Ack)
    ensures var was, now, k := Events(history), Events(history + [a]), Kept(|history|);
            && now[|now| - 1] == AckEvent(Wire(|history| + 1), a.result, a.command)
            && (forall i | 0 <= i < |now| - 1 :: now[i] == if k < CAPACITY then was[i] else was[i + 1])
  {
  }

  function Place(head: nat, count: nat, i: nat): (place: nat)
    requires head < CAPACITY && i < count <= CAPACITY
    ensures place < CAPACITY
  {
    (head + CAPACITY - count + i) % CAPACITY
  }

  // Advancing the head: the newest entry took its place, the others keep theirs.
  lemma Places(head: nat, k: nat, i: nat)
    requires head < CAPACITY && k <= CAPACITY && i < Kept(k + 1)
    ensures var next, n := (head + 1) % CAPACITY, Kept(k + 1);
            if i == n - 1 then Place(next, n, i) == head
            else
              var j := if k < CAPACITY then i else i + 1;
              j < k && Place(next, n, i) == Place(head, k, j) != head
  {
  }

  // The ring's slots show the kept part of the history.
  ghost predicate Holds(slots: seq<AckEvent>, head: nat, history: seq<Ack>) {
    && |slots| == CAPACITY && head < CAPACITY
    && forall i | 0 <= i < Kept(|history|) :: slots[Place(head, Kept(|history|), i)] == Events(history)[i]
  }

  // Overwriting the slot at the head and advancing it adds one acknowledgement.
  lemma HoldsGrows(slots: seq<AckEvent>, head: nat, history: seq<Ack>, a: Ack)
    requires Holds(slots, head, history)
    ensures Holds(slots[head := AckEvent(Wire(|history| + 1), a.result, a.command)], (head + 1) % CAPACITY, history + [a])
  {
    EventsGrow(history, a);
    var next, more := (head + 1) % CAPACITY, history + [a];
    var after := slots[head := AckEvent(Wire(|history| + 1), a.result, a.command)];
    hide Events, Wire, Place;
    var n, k := Kept(|more|), Kept(|history|);
    forall i | 0 <= i < n ensures after[Place(next, n, i)] == Events(more)[i] {
      Places(head, k, i);
    }
  }

  class Ring {
    const slots: array<AckEvent>
    var sequence: U32
    var head: nat
    var count: nat
    ghost var history: seq<Ack>

    ghost predicate Valid()
      reads this, slots
    {
      && slots.Length == CAPACITY && Holds(slots[..], head, history)
      && count == Kept(|history|) && sequence == Wire(|history|)
    }

    constructor ()
      ensures Valid() && history == [] && fresh(slots)
    {
      slots := new AckEvent[CAPACITY](_ => AckEvent(0, 0, 0));
      sequence, head, count, history := 0, 0, 0, [];
    }

    method Observe(command: Byte, result: U16)
      requires Valid()
      modifies this, slots
      ensures Valid() && history == old(history) + [Ack(command, result)]
    {
      assert head < CAPACITY;
      WireCounts(|history|);
      HoldsGrows(slots[..], head, history, Ack(command, result));
      hide Events, Wire, Holds;
      sequence := Wrap32(sequence + 1);
      if sequence == 0 {
        sequence := 1;
      }
      slots[head] := AckEvent(sequence, result, command);
      head := (head + 1) % CAPACITY;
      if count < CAPACITY {
        count := count + 1;
      }
      history := history + [Ack(command, result)];
    }

    method Snapshot() returns (shown: seq<AckEvent>, last: U32)
      requires Valid()
      ensures shown == Events(history) && last == Wire(|history|)
    {
      last := sequence;
      var oldest := (head + CAPACITY - count) % CAPACITY;
      shown := [];
      for index := 0 to count
        invariant |shown| == index
        invariant forall i | 0 <= i < index :: shown[i] == Events(history)[i]
      {
        assert (oldest + index) % CAPACITY == Place(head, count, index);
        shown := shown + [slots[(oldest + index) % CAPACITY]];
      }
    }
  }
}
