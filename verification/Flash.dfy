/** The storage under the two-slot stores: two slots and a commit record, where any call may fail
    or be the last one before a power loss. */
module Flash {
  import opened Wrappers

  // What the medium does with one write or sync call.  A power loss is a failing call: the code
  // returns at once and the next thing that happens is a load.
  datatype Fault<S, C> =
    | Works
    | Refuses                        // nothing is written, the call fails
    | WritesButFails                 // written, but the call fails
    | TearsSlot(junkSlot: S)         // a slot write leaves other bytes, the call fails
    | TearsCommit(junkCommit: C)     // a commit write leaves other bytes, the call fails

  // A slot or record that cannot be read is None.
  datatype Medium<S, C> = Medium(slots: seq<Option<S>>, commit: Option<C>, faults: seq<Fault<S, C>>)

  predicate Sound<S, C>(m: Medium<S, C>) {
    |m.slots| == 2
  }

  function NextFault<S, C>(m: Medium<S, C>): Fault<S, C> {
    if m.faults == [] then Works else m.faults[0]
  }

  function Spend<S, C>(m: Medium<S, C>): Medium<S, C> {
    if m.faults == [] then m else m.(faults := m.faults[1..])
  }

  function SaveSlot<S, C>(m: Medium<S, C>, slot: nat, data: S): (r: (Medium<S, C>, bool))
    requires Sound(m) && slot <= 1
    ensures Sound(r.0)
  {
    match NextFault(m)
    case Works => (Spend(m).(slots := m.slots[slot := Some(data)]), true)
    case WritesButFails => (Spend(m).(slots := m.slots[slot := Some(data)]), false)
    case TearsSlot(junk) => (Spend(m).(slots := m.slots[slot := Some(junk)]), false)
    case _ => (Spend(m), false)
  }

  function SaveCommit<S, C>(m: Medium<S, C>, data: C): (r: (Medium<S, C>, bool))
    ensures r.0.slots == m.slots
  {
    match NextFault(m)
    case Works => (Spend(m).(commit := Some(data)), true)
    case WritesButFails => (Spend(m).(commit := Some(data)), false)
    case TearsCommit(junk) => (Spend(m).(commit := Some(junk)), false)
    case _ => (Spend(m), false)
  }

  function Sync<S, C>(m: Medium<S, C>): (r: (Medium<S, C>, bool))
    ensures r.0.slots == m.slots
  {
    (Spend(m), NextFault(m).Works?)
  }

  // A commit record and the sync after it.
  function WriteCommit<S, C>(m: Medium<S, C>, data: C): (r: (Medium<S, C>, bool))
    ensures r.0.slots == m.slots
  {
    var (m1, saved) := SaveCommit(m, data);
    if !saved then (m1, false) else Sync(m1)
  }

  class Device<S, C> {
    const slots: array<Option<S>>
    var commit: Option<C>
    var faults: seq<Fault<S, C>>

    ghost predicate Valid() {
      slots.Length == 2
    }

    function View(): Medium<S, C>
      reads this, slots
    {
      Medium(slots[..], commit, faults)
    }

    constructor (media: Medium<S, C>)
      requires Sound(media)
      ensures Valid() && View() == media && fresh(slots)
    {
      slots := new Option<S>[2](i requires 0 <= i < 2 => media.slots[i]);
      commit, faults := media.commit, media.faults;
      new;
      assert slots[..] == media.slots;
    }

    method TakeFault() returns (fault: Fault<S, C>)
      modifies this`faults
      ensures fault == NextFault(old(View())) && View() == Spend(old(View()))
    {
      fault := Works;
      if |faults| != 0 {
        fault := faults[0];
        faults := faults[1..];
      }
    }

    method WriteSlot(slot: nat, data: S) returns (ok: bool)
      requires Valid() && slot <= 1
      modifies this`faults, slots
      ensures (View(), ok) == SaveSlot(old(View()), slot, data)
    {
      var fault := TakeFault();
      match fault
      case Works => slots[slot] := Some(data); ok := true;
      case WritesButFails => slots[slot] := Some(data); ok := false;
      case TearsSlot(junk) => slots[slot] := Some(junk); ok := false;
      case _ => ok := false;
    }

    method WriteRecord(data: C) returns (ok: bool)
      modifies this
      ensures (View(), ok) == SaveCommit(old(View()), data)
    {
      var fault := TakeFault();
      match fault
      case Works => commit := Some(data); ok := true;
      case WritesButFails => commit := Some(data); ok := false;
      case TearsCommit(junk) => commit := Some(junk); ok := false;
      case _ => ok := false;
    }

    method Flush() returns (ok: bool)
      modifies this`faults
      ensures (View(), ok) == Sync(old(View()))
    {
      var fault := TakeFault();
      ok := fault.Works?;
    }

    method CommitAndFlush(data: C) returns (ok: bool)
      modifies this
      ensures (View(), ok) == WriteCommit(old(View()), data)
    {
      ok := WriteRecord(data);
      if !ok { return; }
      ok := Flush();
    }
  }
}
