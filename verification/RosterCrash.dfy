/** Power loss and torn writes in the roster store. */
module RosterCrash {
  import opened Wrappers
  import opened Bytes
  import opened CommitRecords
  import opened SiteConfiguration
  import opened GroupRoster
  import opened RosterMedium
  import opened Flash
  import opened TwoSlot

  predicate Harmless(k: Codec, f: RosterFault) {
    match f
    case TearsSlot(junk) => !k.decode(junk).Read?
    case TearsCommit(junk) => DecodeCommit(junk).None?
    case _ => true
  }

  // Torn bytes are assumed not to decode.
  predicate TearsVisibly(k: Codec, faults: seq<RosterFault>) {
    forall i | 0 <= i < |faults| :: Harmless(k, faults[i])
  }

  function ContentOf(d: Decoded): Content<Roster> {
    if d.Read? then Holds(d.roster.generation, d.roster) else Broken
  }

  function ImageOf(k: Codec, m: RosterFlash): (a: Image<Roster>)
    ensures Shaped(a)
  {
    var c := ReadCommit(m);
    Image([ContentOf(SlotContent(k, m, 0)), ContentOf(SlotContent(k, m, 1))],
          if c.None? then NoPointer else Points(c.value.slot, c.value.generation))
  }

  // A store that has been created: both slots and the record can be read, and they fit together.
  ghost predicate Ready(k: Codec, m: RosterFlash) {
    Readable(m) && TearsVisibly(k, m.faults) && Inv(ImageOf(k, m))
  }

  lemma CommitRoundTrip(c: CommitRecord)
    requires c.slot <= 1 && c.generation != 0
    ensures DecodeCommit(CommitBytes(c)) == Some(c)
  {
    CommitReads(ROSTER_MAGIC, ROSTER_VERSION, c);
    hide SealCommit, OpenCommit;
  }

  lemma NextHarmless(k: Codec, m: RosterFlash)
    requires TearsVisibly(k, m.faults)
    ensures Harmless(k, NextFault(m)) && TearsVisibly(k, Spend(m).faults)
  {
    hide DecodeCommit;
  }

  lemma RecordWritten(k: Codec, m: RosterFlash, c: CommitRecord)
    requires Readable(m) && TearsVisibly(k, m.faults) && c.slot <= 1 && c.generation != 0
    ensures var (m1, ok) := WriteCommit(m, CommitBytes(c));
            && Readable(m1) && RecordWrite(ImageOf(k, m), ImageOf(k, m1), Points(c.slot, c.generation), ok)
            && TearsVisibly(k, m1.faults) && (m.faults == [] ==> ok)
  {
    CommitRoundTrip(c);
    NextHarmless(k, m);
    NextHarmless(k, Spend(m));
    hide DecodeCommit, CommitBytes, TearsVisibly;
  }

  lemma SlotChoices(k: Codec, m: RosterFlash, slot: nat, data: Blob)
    requires Readable(m) && TearsVisibly(k, m.faults) && slot <= 1
    ensures var (m1, ok) := SaveSlot(m, slot, data);
            && Readable(m1) && TearsVisibly(k, m1.faults)
            && ReadCommit(m1) == ReadCommit(m) && SlotContent(k, m1, 1 - slot) == SlotContent(k, m, 1 - slot)
            && (|| SlotContent(k, m1, slot) == SlotContent(k, m, slot)
                || SlotContent(k, m1, slot) == k.decode(data)
                || !SlotContent(k, m1, slot).Read?)
            && (ok ==> SlotContent(k, m1, slot) == k.decode(data))
  {
    NextHarmless(k, m);
    hide DecodeCommit, TearsVisibly;
  }

  lemma SlotWritten(k: Codec, m: RosterFlash, slot: nat, roster: Roster, data: Blob)
    requires RoundTrips(k) && k.encode(roster) == Some(data)
    requires Readable(m) && TearsVisibly(k, m.faults) && slot <= 1
    ensures var (m1, ok) := SaveSlot(m, slot, data);
            && Readable(m1) && TearsVisibly(k, m1.faults)
            && SlotWrite(ImageOf(k, m), ImageOf(k, m1), slot, Holds(roster.generation, k.stored(roster)), ok)
  {
    assert k.decode(k.encode(roster).value) == Read(k.stored(roster));
    hide RoundTrips, Readable, TearsVisibly, SaveSlot, SlotContent, ReadCommit;
    SlotChoices(k, m, slot, data);
    var m1 := SaveSlot(m, slot, data).0;
    var a, b := ImageOf(k, m), ImageOf(k, m1);
    OneSlotChanged(a, b, slot, Holds(roster.generation, k.stored(roster)));
  }

  lemma Synced(k: Codec, m: RosterFlash)
    requires Readable(m) && TearsVisibly(k, m.faults)
    ensures var (m1, _) := Sync(m); Readable(m1) && TearsVisibly(k, m1.faults) && ImageOf(k, m1) == ImageOf(k, m)
  {
    NextHarmless(k, m);
    hide TearsVisibly, DecodeCommit;
  }

  // A load gives the current contents or fails; all it may change is the record.
  lemma LoadRefines(k: Codec, m: RosterFlash)
    requires RoundTrips(k) && Ready(k, m)
    ensures var (m1, r, roster) := Load(k, m);
            && Readable(m1) && TearsVisibly(k, m1.faults) && LoadStep(ImageOf(k, m), ImageOf(k, m1))
            && (roster.Some? <==> r == Loaded || r == CommitRepaired)
            && (roster.Some? ==>
                  Pointed(ImageOf(k, m1)) && Holds(roster.value.generation, roster.value) == Current(ImageOf(k, m)))
            && (roster.None? ==> r == StorageFailed && m.faults != [])
  {
    hide DecodeCommit, CommitBytes, WriteCommit, TearsVisibly, ReadCommit;
    var a := ImageOf(k, m);
    if !Pointed(a) {
      var slot := Chosen(a).value;
      var generation := Current(a).generation;
      assert k.decode(m.slots[slot].value).Read?;
      RecordWritten(k, m, CommitRecord(slot, generation));
    }
  }

  lemma WriteRefines(k: Codec, m: RosterFlash, roster: Roster, slot: nat)
    requires RoundTrips(k) && Ready(k, m) && slot <= 1 && roster.generation > 0
    requires ImageOf(k, m).pointer == Points(1 - slot, roster.generation - 1)
    ensures var (m1, r) := Write(k, m, slot, roster);
            && Readable(m1) && TearsVisibly(k, m1.faults) && UpdateStep(ImageOf(k, m), ImageOf(k, m1), k.stored(roster))
            && (r == Updated ==> Current(ImageOf(k, m1)) == Holds(roster.generation, k.stored(roster)))
  {
    var a := ImageOf(k, m);
    UpdateIdle(a, k.stored(roster));
    hide ImageOf, CommitBytes, TearsVisibly, Readable, SaveSlot, Sync, WriteCommit, ReadCommit, Inv, UpdateStep, Current,
         SlotWrite, RecordWrite, RoundTrips;
    if k.encode(roster).Some? {
      var data := k.encode(roster).value;
      SlotWritten(k, m, slot, roster, data);
      var (m1, saved) := SaveSlot(m, slot, data);
      Synced(k, m1);
      var (m2, synced) := Sync(m1);
      RecordWritten(k, m2, CommitRecord(slot, roster.generation));
      var (m3, done) := WriteCommit(m2, CommitBytes(CommitRecord(slot, roster.generation)));
      var last := if saved && synced then ImageOf(k, m3) else ImageOf(k, m1);
      WriteIsUpdate(a, ImageOf(k, m1), last, k.stored(roster), saved && synced, done);
    }
  }

  lemma LoadSafe(k: Codec, m: RosterFlash)
    requires RoundTrips(k) && Ready(k, m)
    ensures var (m1, r, roster) := Load(k, m);
            && Ready(k, m1) && Current(ImageOf(k, m1)) == Current(ImageOf(k, m))
            && (roster.Some? ==>
                  Pointed(ImageOf(k, m1)) && Holds(roster.value.generation, roster.value) == Current(ImageOf(k, m)))
            && (roster.None? ==> r == StorageFailed && m.faults != [])
  {
    hide Load, Inv, Current, LoadStep, TearsVisibly, RoundTrips, Readable, Pointed;
    assert Ready(k, m);
    LoadRefines(k, m);
    LoadStepSafe(ImageOf(k, m), ImageOf(k, Load(k, m).0));
  }

  // What an update would store next.
  function NextRoster(k: Codec, m: RosterFlash, roster: Roster): Roster {
    var g := Generation(ImageOf(k, m));
    if g < MAX_GENERATION then k.stored(roster.(generation := g + 1)) else roster
  }

  function NextContent(k: Codec, m: RosterFlash, roster: Roster): Content<Roster> {
    var g := Generation(ImageOf(k, m));
    if g < MAX_GENERATION then Holds(g + 1, NextRoster(k, m, roster)) else Broken
  }

  lemma WriteSafe(k: Codec, m: RosterFlash, roster: Roster, slot: nat)
    requires RoundTrips(k) && Ready(k, m) && slot <= 1 && roster.generation > 0
    requires ImageOf(k, m).pointer == Points(1 - slot, roster.generation - 1)
    ensures var (m1, r) := Write(k, m, slot, roster);
            var next := Holds(roster.generation, k.stored(roster));
            && Ready(k, m1)
            && (Current(ImageOf(k, m1)) == Current(ImageOf(k, m)) || Current(ImageOf(k, m1)) == next)
            && (r == Updated ==> Current(ImageOf(k, m1)) == next)
  {
    PointedHolds(k, m);
    assert Generation(ImageOf(k, m)) == roster.generation - 1;
    hide ImageOf, Current, Write, RoundTrips, UpdateStep, TearsVisibly, Readable, Inv, Pointed;
    WriteRefines(k, m, roster, slot);
    UpdateStepSafe(ImageOf(k, m), ImageOf(k, Write(k, m, slot, roster).0), k.stored(roster));
  }

  lemma UpdateSafe(k: Codec, m: RosterFlash, roster: Roster)
    requires RoundTrips(k) && Ready(k, m)
    ensures var (m1, r, stored) := Update(k, m, roster);
            && Ready(k, m1)
            && (Current(ImageOf(k, m1)) == Current(ImageOf(k, m)) || Current(ImageOf(k, m1)) == NextContent(k, m, roster))
            && (r == Updated ==>
                && Current(ImageOf(k, m1)) == NextContent(k, m, roster)
                && stored.Some? && NextContent(k, m, roster) == Holds(stored.value.generation, k.stored(stored.value)))
  {
    hide Load, Write, ValidRoster, SamePayload, RoundTrips, Ready, ImageOf, ReadCommit, Pointed, Current;
    LoadSafe(k, m);
    var (m0, loaded, current) := Load(k, m);
    if current.Some? && ValidRoster(roster) && current.value.generation < MAX_GENERATION && !SamePayload(current.value, roster) {
      PointedCommit(k, m0, current.value);
      WriteSafe(k, m0, roster.(generation := current.value.generation + 1), 1 - ReadCommit(m0).value.slot);
    }
  }

  lemma PointedCommit(k: Codec, m: RosterFlash, current: Roster)
    requires Pointed(ImageOf(k, m)) && Current(ImageOf(k, m)) == Holds(current.generation, current)
    ensures ReadCommit(m).Some? && ReadCommit(m).value.generation == current.generation
    ensures ReadCommit(m).value.slot <= 1
    ensures ImageOf(k, m).pointer == Points(ReadCommit(m).value.slot, current.generation)
  {
  }

  // In a ready store the record, if it decodes, names the current generation.
  lemma PointedHolds(k: Codec, m: RosterFlash)
    requires Inv(ImageOf(k, m)) && ImageOf(k, m).pointer.Points?
    ensures Current(ImageOf(k, m)).Holds? && Generation(ImageOf(k, m)) == ImageOf(k, m).pointer.generation
  {
    hide ReadCommit;
  }

  // Main result: an update may fail or tear at any call, and so may the loads after it.  Every
  // load that answers gives exactly the old roster or exactly the new one, and the answers agree.
  lemma UpdateThenLoads(k: Codec, m: RosterFlash, roster: Roster, first: seq<RosterFault>, second: seq<RosterFault>)
    requires RoundTrips(k) && Ready(k, m) && TearsVisibly(k, first) && TearsVisibly(k, second)
    ensures var m1 := Update(k, m, roster).0.(faults := first);
            var (m2, _, a) := Load(k, m1);
            var (_, _, b) := Load(k, m2.(faults := second));
            && (a.Some? ==> Holds(a.value.generation, a.value) in {Current(ImageOf(k, m)), NextContent(k, m, roster)})
            && (a.Some? && b.Some? ==> a == b)
            && (first == [] ==> a.Some?)
  {
    IsSound(k, m);
    hide Load, Update, Ready, ImageOf, Pointed, Current, RoundTrips, TearsVisibly, NextContent;
    UpdateSafe(k, m, roster);
    var m0 := Update(k, m, roster).0;
    OtherFaults(k, m0, first);
    LoadSafe(k, m0.(faults := first));
    var m2 := Load(k, m0.(faults := first)).0;
    OtherFaults(k, m2, second);
    LoadSafe(k, m2.(faults := second));
  }

  lemma OtherFaults(k: Codec, m: RosterFlash, faults: seq<RosterFault>)
    requires Ready(k, m) && TearsVisibly(k, faults)
    ensures Ready(k, m.(faults := faults)) && ImageOf(k, m.(faults := faults)) == ImageOf(k, m)
  {
    hide DecodeCommit, TearsVisibly;
  }

  // One operation of a run: an update, or a load when there is nothing to write, with the faults
  // that happen to it.
  datatype Operation = Operation(write: Option<Roster>, faults: seq<RosterFault>)

  function Perform(k: Codec, m: RosterFlash, op: Operation): RosterFlash
    requires Sound(m)
  {
    var m0 := m.(faults := op.faults);
    if op.write.Some? then Update(k, m0, op.write.value).0 else Load(k, m0).0
  }

  function RunStore(k: Codec, m: RosterFlash, ops: seq<Operation>): (r: RosterFlash)
    requires Sound(m)
    ensures Sound(r)
  {
    if ops == [] then m else Perform(k, RunStore(k, m, ops[..|ops| - 1]), ops[|ops| - 1])
  }

  // What an operation would store.
  function WriteOf(k: Codec, m: RosterFlash, op: Operation): Option<Roster> {
    if op.write.None? then None else Some(NextRoster(k, m, op.write.value))
  }

  function ImagesOf(k: Codec, m: RosterFlash, ops: seq<Operation>): (images: seq<Image<Roster>>)
    requires Sound(m)
    ensures |images| == |ops| + 1
    ensures forall i | 0 <= i <= |ops| :: images[i] == ImageOf(k, RunStore(k, m, ops[..i]))
  {
    seq(|ops| + 1, i requires 0 <= i <= |ops| => ImageOf(k, RunStore(k, m, ops[..i])))
  }

  function WritesOf(k: Codec, m: RosterFlash, ops: seq<Operation>): (w: seq<Option<Roster>>)
    requires Sound(m)
    ensures |w| == |ops|
  {
    seq(|ops|, i requires 0 <= i < |ops| => WriteOf(k, RunStore(k, m, ops[..i]), ops[i]))
  }

  // The part of an update after its load.
  lemma StoreSteps(k: Codec, m0: RosterFlash, current: Roster, roster: Roster)
    requires RoundTrips(k) && Ready(k, m0) && current.generation < MAX_GENERATION
    requires Pointed(ImageOf(k, m0)) && Current(ImageOf(k, m0)) == Holds(current.generation, current)
    ensures Sound(m0) && ReadCommit(m0).Some? && ReadCommit(m0).value.generation == current.generation
    ensures var next := roster.(generation := current.generation + 1);
            UpdateStep(ImageOf(k, m0), ImageOf(k, Write(k, m0, 1 - ReadCommit(m0).value.slot, next).0), k.stored(next))
  {
    hide Ready, RoundTrips, ImageOf, Pointed, Current, Write, ReadCommit, UpdateStep;
    IsSound(k, m0);
    PointedCommit(k, m0, current);
    WriteRefines(k, m0, roster.(generation := current.generation + 1), 1 - ReadCommit(m0).value.slot);
  }

  lemma IdleSteps(k: Codec, m0: RosterFlash, value: Roster)
    requires Ready(k, m0)
    ensures UpdateStep(ImageOf(k, m0), ImageOf(k, m0), value)
  {
    hide ImageOf, Inv, UpdateStep, Readable, TearsVisibly;
    UpdateIdle(ImageOf(k, m0), value);
  }

  lemma UpdateSteps(k: Codec, m: RosterFlash, roster: Roster)
    requires RoundTrips(k) && Ready(k, m)
    ensures Sound(m)
    ensures Steps(ImageOf(k, m), ImageOf(k, Update(k, m, roster).0), Some(NextRoster(k, m, roster)))
  {
    hide RoundTrips, Ready, ImageOf, Load, Write, ReadCommit, Pointed, Current, UpdateStep, LoadStep, ValidRoster,
         SamePayload, Readable, TearsVisibly, Inv;
    IsSound(k, m);
    LoadRefines(k, m);
    LoadSafe(k, m);
    var (m0, _, current) := Load(k, m);
    IdleSteps(k, m0, NextRoster(k, m, roster));
    assert LoadStep(ImageOf(k, m), ImageOf(k, m0));
    if current.Some? && current.value.generation < MAX_GENERATION {
      HoldsGeneration(ImageOf(k, m));
      StoreSteps(k, m0, current.value, roster);
    }
  }

  lemma PerformSteps(k: Codec, m: RosterFlash, op: Operation)
    requires RoundTrips(k) && Ready(k, m) && TearsVisibly(k, op.faults)
    ensures Sound(m) && Ready(k, Perform(k, m, op)) && Steps(ImageOf(k, m), ImageOf(k, Perform(k, m, op)), WriteOf(k, m, op))
  {
    hide Load, Update, Ready, ImageOf, RoundTrips, TearsVisibly, LoadStep, Pointed;
    IsSound(k, m);
    OtherFaults(k, m, op.faults);
    var m0 := m.(faults := op.faults);
    if op.write.Some? {
      UpdateSafe(k, m0, op.write.value);
      UpdateSteps(k, m0, op.write.value);
    } else {
      LoadSafe(k, m0);
      LoadRefines(k, m0);
    }
  }

  lemma {:induction false} RunStaysReady(k: Codec, m: RosterFlash, ops: seq<Operation>)
    requires RoundTrips(k) && Ready(k, m) && forall op | op in ops :: TearsVisibly(k, op.faults)
    ensures Sound(m) && Ready(k, RunStore(k, m, ops))
  {
    hide Ready, RoundTrips, TearsVisibly, Perform, Steps;
    IsSound(k, m);
    if ops != [] {
      RunStaysReady(k, m, ops[..|ops| - 1]);
      PerformSteps(k, RunStore(k, m, ops[..|ops| - 1]), ops[|ops| - 1]);
    }
  }

  // A run of the store is a run of the protocol.
  lemma RunIsPath(k: Codec, m: RosterFlash, ops: seq<Operation>)
    requires RoundTrips(k) && Ready(k, m) && forall op | op in ops :: TearsVisibly(k, op.faults)
    ensures Sound(m) && Path(ImagesOf(k, m, ops), WritesOf(k, m, ops))
  {
    hide RoundTrips, TearsVisibly, Perform, Steps, ImageOf, Inv, Readable;
    IsSound(k, m);
    assert RunStore(k, m, ops[..0]) == m;
    forall i | 0 <= i < |ops| ensures Steps(ImagesOf(k, m, ops)[i], ImagesOf(k, m, ops)[i + 1], WritesOf(k, m, ops)[i]) {
      RunStaysReady(k, m, ops[..i]);
      PerformSteps(k, RunStore(k, m, ops[..i]), ops[i]);
      assert ops[..i + 1][..i] == ops[..i];
    }
  }

  // Between any two moments of a run generations do not fall, and what is current at the later one
  // was current at the earlier one or was written in between.
  lemma RunNeverFallsBack(k: Codec, m: RosterFlash, ops: seq<Operation>, i: nat)
    requires RoundTrips(k) && Ready(k, m) && i <= |ops| && forall op | op in ops :: TearsVisibly(k, op.faults)
    ensures Sound(m) && Ready(k, RunStore(k, m, ops))
    ensures var was, now := ImageOf(k, RunStore(k, m, ops[..i])), ImageOf(k, RunStore(k, m, ops));
            Generation(was) <= Generation(now) && FromWrites(Current(now), Current(was), WritesOf(k, m, ops)[i..])
  {
    hide RoundTrips, TearsVisibly, Ready, ImageOf, Inv, Path, Current, Generation, FromWrites, ImagesOf, WritesOf, RunStore;
    RunIsPath(k, m, ops);
    RunStaysReady(k, m, ops);
    PathSafe(ImagesOf(k, m, ops), WritesOf(k, m, ops), i, |ops|);
    assert ops[..|ops|] == ops && WritesOf(k, m, ops)[i..|ops|] == WritesOf(k, m, ops)[i..];
  }

  // Main result: over any run of updates and loads with faults, a load that answers gives the
  // roster of any earlier moment or one written since, and its generation has not fallen.
  lemma RunLoads(k: Codec, m: RosterFlash, ops: seq<Operation>, i: nat, faults: seq<RosterFault>)
    requires RoundTrips(k) && Ready(k, m) && i <= |ops| && TearsVisibly(k, faults)
    requires forall op | op in ops :: TearsVisibly(k, op.faults)
    ensures Sound(m)
    ensures var was := ImageOf(k, RunStore(k, m, ops[..i]));
            var (_, _, a) := Load(k, RunStore(k, m, ops).(faults := faults));
            && (faults == [] ==> a.Some?)
            && (a.Some? ==>
                && a.value.generation >= Generation(was)
                && FromWrites(Holds(a.value.generation, a.value), Current(was), WritesOf(k, m, ops)[i..]))
  {
    hide RoundTrips, TearsVisibly, Ready, ImageOf, Inv, Current, FromWrites, Load, Pointed;
    RunNeverFallsBack(k, m, ops, i);
    OtherFaults(k, RunStore(k, m, ops), faults);
    LoadSafe(k, RunStore(k, m, ops).(faults := faults));
    IsSound(k, RunStore(k, m, ops));
    assert Current(ImageOf(k, RunStore(k, m, ops))).Holds?;
    HoldsGeneration(ImageOf(k, RunStore(k, m, ops)));
  }

  lemma HoldsGeneration(a: Image<Roster>)
    requires Current(a).Holds?
    ensures Current(a).generation == Generation(a)
  {
  }

  lemma IsSound(k: Codec, m: RosterFlash)
    requires Ready(k, m)
    ensures Sound(m) && Current(ImageOf(k, m)).Holds?
  {
  }
}
