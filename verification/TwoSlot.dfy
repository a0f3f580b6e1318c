/** The protocol behind the self-repairing stores, on what their slots and commit record decode to.
    A slot that does not decode is Broken; so is a commit record. */
module TwoSlot {
  import opened Wrappers

  datatype Content<T> = Broken | Holds(generation: nat, value: T)

  datatype Pointer = NoPointer | Points(slot: nat, generation: nat)

  datatype Image<T> = Image(slots: seq<Content<T>>, pointer: Pointer)

  predicate Shaped<T>(a: Image<T>) {
    |a.slots| == 2 && (a.pointer.Points? ==> a.pointer.slot <= 1)
  }

  // The record points at a slot that holds the generation it names.
  predicate Pointed<T>(a: Image<T>) {
    Shaped(a) && a.pointer.Points? && a.slots[a.pointer.slot].Holds? && a.slots[a.pointer.slot].generation == a.pointer.generation
  }

  // The slot a load settles on: the one pointed at, else the newest.
  function Chosen<T>(a: Image<T>): (slot: Option<nat>)
    ensures slot.Some? ==> Shaped(a) && slot.value <= 1 && a.slots[slot.value].Holds?
  {
    if !Shaped(a) then None
    else if Pointed(a) then Some(a.pointer.slot)
    else if a.slots[0].Broken? && a.slots[1].Broken? then None
    else if a.slots[1].Holds? && (a.slots[0].Broken? || a.slots[1].generation > a.slots[0].generation) then Some(1)
    else Some(0)
  }

  function Current<T>(a: Image<T>): Content<T> {
    if Chosen(a).Some? then a.slots[Chosen(a).value] else Broken
  }

  function Generation<T>(a: Image<T>): nat {
    if Current(a).Holds? then Current(a).generation else 0
  }

  // What every run keeps: a record that decodes points at its slot, and the other slot is broken or
  // older, or it is the next generation, written but not yet pointed at.
  predicate Inv<T>(a: Image<T>) {
    Shaped(a) && Chosen(a).Some? && (a.pointer.Points? ==> Pointed(a)) &&
    var c := Chosen(a).value;
    var other := a.slots[1 - c];
    other.Holds? ==>
      other.generation < a.slots[c].generation ||
      (Pointed(a) && other.generation == a.slots[c].generation + 1)
  }

  // A load may rewrite the record, well or badly, only when nothing is pointed at.
  predicate LoadStep<T(==)>(a: Image<T>, b: Image<T>) {
    b == a ||
    (Inv(a) && !Pointed(a) && b.slots == a.slots &&
     (b.pointer == NoPointer || b.pointer == Points(Chosen(a).value, Generation(a))))
  }

  // An update writes the other slot and then the record; it can stop or tear anywhere.
  predicate UpdateStep<T(==)>(a: Image<T>, b: Image<T>, value: T) {
    b == a ||
    (Inv(a) && Pointed(a) && Generation(a) < 0xFFFF_FFFF &&
     var c := Chosen(a).value;
     var next := Holds(Generation(a) + 1, value);
     || (b.pointer == a.pointer && (b.slots == a.slots[1 - c := Broken] || b.slots == a.slots[1 - c := next]))
     || (b.slots == a.slots[1 - c := next] && (b.pointer == NoPointer || b.pointer == Points(1 - c, next.generation))))
  }

  lemma LoadStepSafe<T>(a: Image<T>, b: Image<T>)
    requires Inv(a) && LoadStep(a, b)
    ensures Inv(b) && Current(b) == Current(a)
  {
  }

  // Whatever happens during an update, the old contents or the new ones are current after it.
  lemma UpdateStepSafe<T>(a: Image<T>, b: Image<T>, value: T)
    requires Inv(a) && UpdateStep(a, b, value)
    ensures Inv(b) && (Current(b) == Current(a) || Current(b) == Holds(Generation(a) + 1, value))
  {
  }

  lemma PointedAtFirst<T>(a: Image<T>, value: T)
    requires Shaped(a) && a.pointer == Points(0, 1) && a.slots[0] == Holds(1, value)
    ensures Current(a) == Holds(1, value)
    ensures Inv(a) <==> a.slots[1].Broken? || a.slots[1].generation == 0 || a.slots[1].generation == 2
  {
  }

  // One slot write, done or torn or not done; `ok` only when it was done.
  predicate SlotWrite<T(==)>(a: Image<T>, b: Image<T>, slot: nat, next: Content<T>, ok: bool) {
    && Shaped(a) && slot <= 1 && b.pointer == a.pointer
    && (b.slots == a.slots || b.slots == a.slots[slot := next] || b.slots == a.slots[slot := Broken])
    && (ok ==> b.slots == a.slots[slot := next])
  }

  lemma OneSlotChanged<T>(a: Image<T>, b: Image<T>, slot: nat, next: Content<T>)
    requires Shaped(a) && Shaped(b) && slot <= 1 && b.slots[1 - slot] == a.slots[1 - slot]
    ensures b.slots[slot] == a.slots[slot] ==> b.slots == a.slots
    ensures b.slots[slot] == next ==> b.slots == a.slots[slot := next]
    ensures b.slots[slot] == Broken ==> b.slots == a.slots[slot := Broken]
  {
  }

  lemma UpdateIdle<T>(a: Image<T>, value: T)
    requires Inv(a)
    ensures UpdateStep(a, a, value)
  {
  }

  // One record write, done or torn or not done.
  predicate RecordWrite<T(==)>(a: Image<T>, b: Image<T>, pointer: Pointer, ok: bool) {
    && b.slots == a.slots && (b.pointer == a.pointer || b.pointer == NoPointer || b.pointer == pointer)
    && (ok ==> b.pointer == pointer)
  }

  // Writing the other slot and, once that worked, the record, is an update.
  lemma WriteIsUpdate<T>(a: Image<T>, mid: Image<T>, b: Image<T>, value: T, saved: bool, done: bool)
    requires Inv(a) && a.pointer.Points? && a.pointer.generation < 0xFFFF_FFFF
    requires var o := 1 - a.pointer.slot;
             var generation := a.pointer.generation + 1;
             && SlotWrite(a, mid, o, Holds(generation, value), saved)
             && if saved then RecordWrite(mid, b, Points(o, generation), done) else b == mid
    ensures UpdateStep(a, b, value)
    ensures saved && done ==> Inv(b) && Current(b) == Holds(a.pointer.generation + 1, value)
  {
  }

  // A step of either kind; None stands for a load.  An update may load first.
  ghost predicate Steps<T(!new)>(a: Image<T>, b: Image<T>, write: Option<T>) {
    match write
    case None => LoadStep(a, b)
    case Some(value) => exists mid: Image<T> :: LoadStep(a, mid) && UpdateStep(mid, b, value)
  }

  ghost predicate Path<T(!new)>(images: seq<Image<T>>, writes: seq<Option<T>>) {
    |images| == |writes| + 1 && Inv(images[0]) &&
    forall i | 0 <= i < |writes| :: Steps(images[i], images[i + 1], writes[i])
  }

  // What is current after `writes`, when `value` was before: that, or one that was written.
  ghost predicate FromWrites<T(!new)>(now: Content<T>, was: Content<T>, writes: seq<Option<T>>) {
    now == was || (now.Holds? && Some(now.value) in writes)
  }

  lemma StepSafe<T(!new)>(a: Image<T>, b: Image<T>, write: Option<T>)
    requires Inv(a) && Steps(a, b, write)
    ensures Inv(b) && Generation(a) <= Generation(b)
    ensures Current(b) == Current(a) || (write.Some? && Current(b) == Holds(Generation(b), write.value))
  {
    match write
    case None => LoadStepSafe(a, b);
    case Some(value) =>
      var mid :| LoadStep(a, mid) && UpdateStep(mid, b, value);
      LoadStepSafe(a, mid);
      UpdateStepSafe(mid, b, value);
  }

  // Between any two states of a run the generation does not fall, and what is current at the later
  // one is what was current at the earlier one or was written in between.
  lemma {:induction false} PathSafe<T(!new)>(images: seq<Image<T>>, writes: seq<Option<T>>, j: nat, k: nat)
    requires Path(images, writes) && j <= k <= |writes|
    ensures Inv(images[j]) && Inv(images[k]) && Generation(images[j]) <= Generation(images[k])
    ensures FromWrites(Current(images[k]), Current(images[j]), writes[j..k])
    decreases k
  {
    hide Inv, Current, Generation, Steps;
    if j < k {
      PathSafe(images, writes, j, k - 1);
      StepSafe(images[k - 1], images[k], writes[k - 1]);
      assert writes[j..k] == writes[j..k - 1] + [writes[k - 1]];
    } else if k > 0 {
      PathSafe(images, writes, k - 1, k - 1);
      StepSafe(images[k - 1], images[k], writes[k - 1]);
    }
  }
}
