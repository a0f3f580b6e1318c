/** Power loss and torn writes in the credential store. */
module CredentialCrash {
  import opened Wrappers
  import opened Bytes
  import opened CommitRecords
  import opened Credentials
  import opened CredentialCodec
  import opened CredentialMedium
  import opened Flash
  import opened TwoSlot

  // Torn bytes are assumed not to decode: magic, version and checksum stand in the way.
  predicate TearsVisibly(m: CredentialFlash) {
    forall i | 0 <= i < |m.faults| ::
      match m.faults[i]
      case TearsSlot(junk) => !DecodeBlob(junk).DECODED?
      case TearsCommit(junk) => DecodeCommit(junk).None?
      case _ => true
  }

  function ContentOf(r: DecodeResult): Content<Slots> {
    if r.DECODED? then Holds(r.snapshot.generation, r.snapshot.slots) else Broken
  }

  function ImageOf(m: CredentialFlash): (a: Image<Slots>)
    requires Sound(m)
    ensures Shaped(a)
  {
    var c := ReadCommit(m);
    Image([ContentOf(LoadSlot(m, 0)), ContentOf(LoadSlot(m, 1))],
          if c.None? then NoPointer else Points(c.value.slot, c.value.generation))
  }

  lemma CommitRoundTrip(c: CommitRecord)
    requires c.slot <= 1 && c.generation != 0
    ensures DecodeCommit(CommitBytes(c)) == Some(c)
  {
    CommitReads(COMMIT_MAGIC, STORAGE_VERSION, c);
  }

  // What a written slot decodes to: the records, compacted.
  lemma BlobRoundTrip(slots: Slots, generation: U32)
    requires |slots| == SLOTS && ValidSlots(slots) && generation != 0
    ensures DecodeBlob(BlobBytes(slots, generation)) == DECODED(Snapshot(Compact(slots), generation))
  {
    RecordsDistinct(slots);
    RoundTrip(slots, generation, "");
    hide Encoded, Decode, BytesU32, ReadU32;
    var payload := Encoded(Records(slots), generation);
    var data := BlobBytes(slots, generation);
    HasAtSplit(data, 0, payload + Zeros(FOOTER - |payload|), BytesU32(|payload|));
    HasAtU32(data, FOOTER, |payload|);
    assert data[..|payload|] == payload;
  }

  lemma DecodedGeneration(m: CredentialFlash, slot: nat)
    requires Sound(m) && slot <= 1 && LoadSlot(m, slot).DECODED?
    ensures LoadSlot(m, slot).snapshot.generation != 0
  {
    hide DecodeRecords;
  }

  lemma FaultVisible(m: CredentialFlash)
    requires TearsVisibly(m)
    ensures TearsVisibly(Spend(m))
    ensures NextFault(m).TearsSlot? ==> !DecodeBlob(NextFault(m).junkSlot).DECODED?
    ensures NextFault(m).TearsCommit? ==> DecodeCommit(NextFault(m).junkCommit).None?
  {
    hide DecodeBlob, DecodeCommit;
    if m.faults != [] {
      assert NextFault(m) == m.faults[0];
      forall i | 0 <= i < |m.faults| - 1 ensures Spend(m).faults[i] == m.faults[i + 1] {}
    }
  }

  lemma SlotChoices(m: CredentialFlash, slot: nat, data: Blob)
    requires Sound(m) && TearsVisibly(m) && slot <= 1
    ensures var (m1, ok) := SaveSlot(m, slot, data);
            && TearsVisibly(m1) && ReadCommit(m1) == ReadCommit(m) && LoadSlot(m1, 1 - slot) == LoadSlot(m, 1 - slot)
            && (|| LoadSlot(m1, slot) == LoadSlot(m, slot)
                || LoadSlot(m1, slot) == DecodeBlob(data)
                || !LoadSlot(m1, slot).DECODED?)
            && (ok ==> LoadSlot(m1, slot) == DecodeBlob(data))
  {
    FaultVisible(m);
    hide DecodeBlob, DecodeCommit, TearsVisibly;
  }

  lemma SlotSaved(m: CredentialFlash, slot: nat, slots: Slots, generation: U32)
    requires Sound(m) && TearsVisibly(m) && slot <= 1 && generation != 0
    requires |slots| == SLOTS && ValidSlots(slots)
    ensures var (m1, ok) := SaveSlot(m, slot, BlobBytes(slots, generation));
            && TearsVisibly(m1) && SlotWrite(ImageOf(m), ImageOf(m1), slot, Holds(generation, Compact(slots)), ok)
  {
    hide DecodeBlob, BlobBytes, ValidSlots, TearsVisibly, Compact, SaveSlot, LoadSlot, ReadCommit;
    BlobRoundTrip(slots, generation);
    SlotChoices(m, slot, BlobBytes(slots, generation));
    var m1 := SaveSlot(m, slot, BlobBytes(slots, generation)).0;
    OneSlotChanged(ImageOf(m), ImageOf(m1), slot, Holds(generation, Compact(slots)));
  }

  lemma CommitWritten(m: CredentialFlash, c: CommitRecord)
    requires Sound(m) && TearsVisibly(m) && c.slot <= 1 && c.generation != 0
    ensures var (m1, ok) := WriteCommit(m, CommitBytes(c));
            && Sound(m1) && RecordWrite(ImageOf(m), ImageOf(m1), Points(c.slot, c.generation), ok)
            && (m.faults == [] ==> ok)
  {
    CommitRoundTrip(c);
    FaultVisible(m);
    hide DecodeBlob, DecodeCommit, CommitBytes, TearsVisibly;
  }

  lemma Synced(m: CredentialFlash)
    requires Sound(m) && TearsVisibly(m)
    ensures var (m1, _) := Sync(m); Sound(m1) && TearsVisibly(m1) && ImageOf(m1) == ImageOf(m)
  {
    FaultVisible(m);
  }

  lemma DesignatedIsPointed(m: CredentialFlash)
    requires Sound(m)
    ensures Designated(m).Some? <==> Pointed(ImageOf(m))
    ensures Designated(m).Some? ==>
              Chosen(ImageOf(m)).Some? && Current(ImageOf(m)) == Holds(Designated(m).value.generation, Designated(m).value.slots)
  {
    hide DecodeBlob, DecodeCommit;
  }

  // A load gives the current contents; all it may change is the record.
  lemma LoadRefines(m: CredentialFlash)
    requires Sound(m) && TearsVisibly(m) && Inv(ImageOf(m))
    ensures var (m1, r, s) := Load(m);
            && Sound(m1) && LoadStep(ImageOf(m), ImageOf(m1))
            && r in {Loaded, CommitRepaired, StorageFailed}
            && Holds(s.generation, s.slots) == Current(ImageOf(m))
            && (m.faults == [] ==> r != StorageFailed && Pointed(ImageOf(m1)))
  {
    DesignatedIsPointed(m);
    hide DecodeBlob, DecodeCommit, CommitBytes, Designated, WriteCommit, TearsVisibly;
    if Designated(m).None? {
      var s := Load(m).2;
      var slot := Chosen(ImageOf(m)).value;
      DecodedGeneration(m, slot);
      CommitWritten(m, CommitRecord(slot, s.generation));
    }
  }

  lemma WriteRefines(m: CredentialFlash, slots: Slots, slot: nat, next: U32)
    requires Sound(m) && TearsVisibly(m) && Inv(ImageOf(m)) && |slots| == SLOTS && ValidSlots(slots)
    requires slot <= 1 && next > 1 && ImageOf(m).pointer == Points(1 - slot, next - 1)
    ensures var (m1, r) := Write(m, slot, slots, next);
            && UpdateStep(ImageOf(m), ImageOf(m1), Compact(slots))
            && (r == Updated ==> Inv(ImageOf(m1)) && Current(ImageOf(m1)) == Holds(next, Compact(slots)))
  {
    var a := ImageOf(m);
    hide ImageOf, CommitBytes, BlobBytes, ValidSlots, TearsVisibly, SaveSlot, Sync, WriteCommit, Compact, ReadCommit, Inv,
         UpdateStep, Current, SlotWrite, RecordWrite;
    SlotSaved(m, slot, slots, next);
    var (m1, saved) := SaveSlot(m, slot, BlobBytes(slots, next));
    Synced(m1);
    var (m2, synced) := Sync(m1);
    CommitWritten(m2, CommitRecord(slot, next));
    var (m3, done) := WriteCommit(m2, CommitBytes(CommitRecord(slot, next)));
    var last := if saved && synced then ImageOf(m3) else ImageOf(m1);
    WriteIsUpdate(a, ImageOf(m1), last, Compact(slots), saved && synced, done);
  }

  lemma CommitPoints(m: CredentialFlash)
    requires Sound(m)
    ensures ReadCommit(m).Some? ==>
              && ReadCommit(m).value.slot <= 1 && ReadCommit(m).value.generation > 0
              && ImageOf(m).pointer == Points(ReadCommit(m).value.slot, ReadCommit(m).value.generation)
  {
    hide DecodeBlob;
  }

  lemma UpdateRefines(m: CredentialFlash, slots: Slots, generation: U32)
    requires Sound(m) && TearsVisibly(m) && Inv(ImageOf(m)) && |slots| == SLOTS && ValidSlots(slots)
    ensures var (m1, r, s) := Update(m, slots, generation);
            && Sound(m1) && UpdateStep(ImageOf(m), ImageOf(m1), Compact(slots))
            && (r == Updated ==>
                && Inv(ImageOf(m1)) && Current(ImageOf(m1)) == Holds(generation + 1, Compact(slots))
                && s.Some? && s.value.slots == slots && s.value.generation == generation + 1)
            && (r != Updated ==> s.None?)
  {
    hide ImageOf, ReadCommit, ValidSlots, Write, UpdateStep, Compact, Inv, TearsVisibly, Current;
    var c := ReadCommit(m);
    UpdateIdle(ImageOf(m), Compact(slots));
    CommitPoints(m);
    if c.Some? && c.value.generation == generation && generation < 0xFFFF_FFFF {
      WriteRefines(m, slots, 1 - c.value.slot, generation + 1);
    }
  }

  lemma UpdateSafe(m: CredentialFlash, slots: Slots, generation: U32)
    requires Sound(m) && TearsVisibly(m) && Inv(ImageOf(m)) && |slots| == SLOTS && ValidSlots(slots)
    ensures var m1 := Update(m, slots, generation).0;
            && Sound(m1) && Inv(ImageOf(m1))
            && (Current(ImageOf(m1)) == Current(ImageOf(m)) ||
                Current(ImageOf(m1)) == Holds(Generation(ImageOf(m)) + 1, Compact(slots)))
  {
    hide ImageOf, Update, Inv, Current, UpdateStep, TearsVisibly, Compact, ValidSlots;
    UpdateRefines(m, slots, generation);
    UpdateStepSafe(ImageOf(m), ImageOf(Update(m, slots, generation).0), Compact(slots));
  }

  lemma LoadSafe(m: CredentialFlash)
    requires Sound(m) && TearsVisibly(m) && Inv(ImageOf(m))
    ensures var (m1, _, s) := Load(m);
            && Sound(m1) && Inv(ImageOf(m1)) && Current(ImageOf(m1)) == Current(ImageOf(m))
            && Holds(s.generation, s.slots) == Current(ImageOf(m))
  {
    hide ImageOf, Load, Inv, Current, LoadStep, TearsVisibly;
    LoadRefines(m);
    LoadStepSafe(ImageOf(m), ImageOf(Load(m).0));
  }

  // Main result: an update of an initialised store may fail or tear at any call, and so may the
  // repairs of the loads after it; every load that answers gives exactly the old contents or
  // exactly the new ones, and the answer never changes back.
  lemma UpdateThenLoads(m: CredentialFlash, slots: Slots, generation: U32, repairs: seq<CredentialFault>, again: seq<CredentialFault>)
    requires Sound(m) && TearsVisibly(m) && Inv(ImageOf(m)) && |slots| == SLOTS && ValidSlots(slots)
    requires TearsVisibly(m.(faults := repairs)) && TearsVisibly(m.(faults := again))
    ensures var old' := Current(ImageOf(m));
            var m1 := Update(m, slots, generation).0.(faults := repairs);
            var (m2, _, first) := Load(m1);
            var (_, _, second) := Load(m2.(faults := again));
            && (Holds(first.generation, first.slots) == old' ||
                Holds(first.generation, first.slots) == Holds(Generation(ImageOf(m)) + 1, Compact(slots)))
            && second == first
  {
    hide ImageOf, Update, Load, Inv, Current, LoadStep, UpdateStep, TearsVisibly, Compact, Pointed, ValidSlots;
    UpdateSafe(m, slots, generation);
    var m0 := Update(m, slots, generation).0;
    var m1 := m0.(faults := repairs);
    OtherFaults(m0, repairs, m);
    LoadSafe(m1);
    var m2 := Load(m1).0;
    OtherFaults(m2, again, m);
    LoadSafe(m2.(faults := again));
  }

  lemma OtherFaults(m: CredentialFlash, faults: seq<CredentialFault>, like: CredentialFlash)
    requires Sound(m) && TearsVisibly(like.(faults := faults))
    ensures Sound(m.(faults := faults)) && ImageOf(m.(faults := faults)) == ImageOf(m)
    ensures TearsVisibly(m.(faults := faults))
  {
    hide DecodeBlob, DecodeCommit;
  }

  lemma CreationImage(m: CredentialFlash, slots: Slots)
    requires Sound(m) && TearsVisibly(m) && |slots| == SLOTS && ValidSlots(slots)
    ensures var (m1, r) := Write(m, 0, slots, 1);
            && (m.faults == [] ==> r == Updated)
            && (r == Updated ==>
                && ImageOf(m1).pointer == Points(0, 1)
                && ImageOf(m1).slots == ImageOf(m).slots[0 := Holds(1, Compact(slots))])
  {
    SlotSaved(m, 0, slots, 1);
    var (m1, saved) := SaveSlot(m, 0, BlobBytes(slots, 1));
    Synced(m1);
    CommitWritten(Sync(m1).0, CommitRecord(0, 1));
    hide CommitBytes, BlobBytes, ValidSlots, Compact, TearsVisibly, ImageOf, SaveSlot, WriteCommit, Sync;
    if m.faults == [] { NoFaults(m, slots); }
  }

  lemma NoFaults(m: CredentialFlash, slots: Slots)
    requires Sound(m) && m.faults == [] && |slots| == SLOTS && ValidSlots(slots)
    ensures var (m1, saved) := SaveSlot(m, 0, BlobBytes(slots, 1));
            saved && m1.faults == [] && Sync(m1) == (m1, true)
  {
    hide BlobBytes, ValidSlots;
  }

  // A successful creation holds the new contents, and the store is initialised exactly when the other
  // slot has nothing to offer, or the generation that would come next.
  lemma CreateInitialises(m: CredentialFlash, slots: Slots)
    requires Sound(m) && TearsVisibly(m) && |slots| == SLOTS && ValidSlots(slots)
    ensures var (m1, r, s) := Create(m, slots);
            && (m.faults == [] ==> r == Created) && (r == Created <==> s.Some?)
            && (r == Created ==>
                && Sound(m1) && s == Some(Snapshot(slots, 1)) && Current(ImageOf(m1)) == Holds(1, Compact(slots))
                && (Inv(ImageOf(m1)) <==> !LoadSlot(m, 1).DECODED? || LoadSlot(m, 1).snapshot.generation == 2))
  {
    CreationImage(m, slots);
    if LoadSlot(m, 1).DECODED? { DecodedGeneration(m, 1); }
    assert ImageOf(m).slots[1] == ContentOf(LoadSlot(m, 1));
    hide Write, ValidSlots, Compact, TearsVisibly, ImageOf, LoadSlot, Inv, Current;
    if Create(m, slots).1 == Created {
      PointedAtFirst(ImageOf(Create(m, slots).0), Compact(slots));
    }
  }

  // One operation of a run: an update of a snapshot's generation, or a load, and its faults.
  datatype Operation = Saving(slots: Slots, generation: U32, faults: seq<CredentialFault>) | Loading(faults: seq<CredentialFault>)

  predicate Performable(m: CredentialFlash, op: Operation) {
    TearsVisibly(m.(faults := op.faults)) && (op.Saving? ==> |op.slots| == SLOTS && ValidSlots(op.slots))
  }

  function Perform(m: CredentialFlash, op: Operation): (r: CredentialFlash)
    requires Sound(m) && Performable(m, op)
    ensures Sound(r)
  {
    if op.Saving? then Update(m.(faults := op.faults), op.slots, op.generation).0 else Load(m.(faults := op.faults)).0
  }

  ghost predicate IsRun(media: seq<CredentialFlash>, ops: seq<Operation>) {
    && |media| == |ops| + 1
    && forall i | 0 <= i < |ops| :: Sound(media[i]) && Performable(media[i], ops[i]) && media[i + 1] == Perform(media[i], ops[i])
  }

  // What an operation would store.
  function WriteOf(op: Operation): Option<Slots> {
    if op.Saving? then Some(Compact(op.slots)) else None
  }

  function WritesOf(ops: seq<Operation>): (w: seq<Option<Slots>>)
    ensures |w| == |ops|
  {
    seq(|ops|, i requires 0 <= i < |ops| => WriteOf(ops[i]))
  }

  function ImagesOf(media: seq<CredentialFlash>): (images: seq<Image<Slots>>)
    requires forall i | 0 <= i < |media| :: Sound(media[i])
    ensures |images| == |media| && forall i | 0 <= i < |media| :: images[i] == ImageOf(media[i])
  {
    seq(|media|, i requires 0 <= i < |media| => ImageOf(media[i]))
  }

  lemma PerformSteps(m: CredentialFlash, op: Operation)
    requires Sound(m) && Performable(m, op) && Inv(ImageOf(m))
    ensures Steps(ImageOf(m), ImageOf(Perform(m, op)), WriteOf(op))
  {
    hide ImageOf, Update, Load, Inv, TearsVisibly, Compact, ValidSlots, UpdateStep;
    OtherFaults(m, op.faults, m);
    if op.Saving? {
      UpdateRefines(m.(faults := op.faults), op.slots, op.generation);
      assert LoadStep(ImageOf(m), ImageOf(m));
    } else {
      LoadRefines(m.(faults := op.faults));
    }
  }

  lemma RunIsSound(media: seq<CredentialFlash>, ops: seq<Operation>, k: nat)
    requires IsRun(media, ops) && k < |media| && Sound(media[0])
    ensures Sound(media[k])
  {
    hide Perform;
    if k > 0 {
      assert media[k - 1 + 1] == Perform(media[k - 1], ops[k - 1]);
    }
  }

  lemma {:induction false} RunHasInv(media: seq<CredentialFlash>, ops: seq<Operation>, k: nat)
    requires IsRun(media, ops) && k < |media| && Sound(media[0]) && Inv(ImageOf(media[0]))
    ensures Sound(media[k]) && Inv(ImageOf(media[k]))
    decreases k
  {
    hide ImageOf, Inv, Perform, Performable, Steps;
    RunIsSound(media, ops, k);
    if k > 0 {
      RunHasInv(media, ops, k - 1);
      assert media[k - 1 + 1] == Perform(media[k - 1], ops[k - 1]);
      PerformSteps(media[k - 1], ops[k - 1]);
      StepSafe(ImageOf(media[k - 1]), ImageOf(media[k]), WriteOf(ops[k - 1]));
    }
  }

  // A run of the store is a run of the protocol.
  lemma RunIsPath(media: seq<CredentialFlash>, ops: seq<Operation>)
    requires IsRun(media, ops) && Sound(media[0]) && Inv(ImageOf(media[0]))
    ensures forall i | 0 <= i < |media| :: Sound(media[i])
    ensures Path(ImagesOf(media), WritesOf(ops))
  {
    hide ImageOf, Inv, Perform, Performable, Steps, WriteOf;
    forall i | 0 <= i < |media| ensures Sound(media[i]) {
      RunIsSound(media, ops, i);
    }
    forall i | 0 <= i < |ops| ensures Steps(ImagesOf(media)[i], ImagesOf(media)[i + 1], WritesOf(ops)[i]) {
      RunHasInv(media, ops, i);
      PerformSteps(media[i], ops[i]);
    }
  }

  // Between any two moments of a run generations do not fall, and what is current at the later one
  // was current at the earlier one or was written in between.
  lemma RunNeverFallsBack(media: seq<CredentialFlash>, ops: seq<Operation>, j: nat, k: nat)
    requires IsRun(media, ops) && j <= k < |media| && Sound(media[0]) && Inv(ImageOf(media[0]))
    ensures Sound(media[j]) && Sound(media[k]) && Inv(ImageOf(media[k]))
    ensures Generation(ImageOf(media[j])) <= Generation(ImageOf(media[k]))
    ensures FromWrites(Current(ImageOf(media[k])), Current(ImageOf(media[j])), WritesOf(ops[j..k]))
  {
    hide ImageOf, Inv, Current, Path, FromWrites, Perform, Performable, Generation;
    RunIsPath(media, ops);
    PathSafe(ImagesOf(media), WritesOf(ops), j, k);
    assert WritesOf(ops)[j..k] == WritesOf(ops[j..k]);
  }

  // Main result: over any run of updates and loads with faults, a load gives the contents of any
  // earlier moment or contents written since, and its generation has not fallen.
  lemma RunLoads(media: seq<CredentialFlash>, ops: seq<Operation>, j: nat, k: nat, faults: seq<CredentialFault>)
    requires IsRun(media, ops) && j <= k < |media| && Sound(media[0]) && Inv(ImageOf(media[0]))
    requires TearsVisibly(media[k].(faults := faults))
    ensures Sound(media[j]) && Sound(media[k])
    ensures var s := Load(media[k].(faults := faults)).2;
            && s.generation >= Generation(ImageOf(media[j]))
            && FromWrites(Holds(s.generation, s.slots), Current(ImageOf(media[j])), WritesOf(ops[j..k]))
  {
    hide ImageOf, Inv, Load, Current, IsRun, TearsVisibly, FromWrites;
    RunNeverFallsBack(media, ops, j, k);
    OtherFaults(media[k], faults, media[k]);
    LoadRefines(media[k].(faults := faults));
    InvHolds(media[k]);
  }

  // Main result: once an update has reported success, its contents are lost only to later ones.
  lemma SavedSurvives(media: seq<CredentialFlash>, ops: seq<Operation>, j: nat, k: nat, faults: seq<CredentialFault>)
    requires IsRun(media, ops) && j < k < |media| && Sound(media[0]) && Inv(ImageOf(media[0]))
    requires TearsVisibly(media[k].(faults := faults)) && Sound(media[j]) && Sound(media[k])
    requires ops[j].Saving? && Performable(media[j], ops[j])
    requires Update(media[j].(faults := ops[j].faults), ops[j].slots, ops[j].generation).1 == Updated
    ensures Some(Load(media[k].(faults := faults)).2.slots) in WritesOf(ops[j..k])
  {
    assert media[j + 1] == Perform(media[j], ops[j]);
    hide ImageOf, Inv, Load, Current, Update, IsRun, TearsVisibly, Compact, ValidSlots, UpdateStep, Generation;
    RunLoads(media, ops, j + 1, k, faults);
    RunHasInv(media, ops, j);
    OtherFaults(media[j], ops[j].faults, media[j]);
    UpdateRefines(media[j].(faults := ops[j].faults), ops[j].slots, ops[j].generation);
    assert WritesOf(ops[j..k])[0] == WriteOf(ops[j]);
    assert WritesOf(ops[j..k])[1..] == WritesOf(ops[j + 1..k]);
  }

  lemma InvHolds(m: CredentialFlash)
    ensures Sound(m) && Inv(ImageOf(m)) ==> Current(ImageOf(m)).Holds? && Current(ImageOf(m)).generation == Generation(ImageOf(m))
    ensures Sound(m) && Current(ImageOf(m)).Holds? ==> Current(ImageOf(m)).generation == Generation(ImageOf(m))
  {
    hide DecodeBlob, DecodeCommit;
  }
}
