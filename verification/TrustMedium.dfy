/** The keyring store as functions of its medium. */
module TrustMedium {
  import opened Wrappers
  import opened Bytes
  import opened FirmwareTrust
  import opened TrustCodec
  import opened Flash

  type TrustFlash = Flash.Medium<Slot, Commit>
  type TrustFault = Flash.Fault<Slot, Commit>

  // The commit record is small enough to be written at once or not at all.
  predicate AtomicCommits(m: TrustFlash) {
    forall i | 0 <= i < |m.faults| :: !m.faults[i].TearsCommit?
  }

  datatype Result =
    | Empty | Loaded | Created | StagedOk | Updated | CommitRepaired | Corrupt | UnsupportedVersion
    | StorageFailed | InvalidState | RollbackRejected

  datatype Staged = Staged(slot: nat, generation: U32, trustRevision: U32)

  const NO_SNAPSHOT := Snapshot(0, TrustState(0, 0, [NO_KEY, NO_KEY], [NO_KEY, NO_KEY], [NO_ID, NO_ID, NO_ID, NO_ID]))

  function LoadSlot(m: TrustFlash, slot: nat): SlotResult
    requires Sound(m) && slot <= 1
  {
    match m.slots[slot]
    case None => EMPTY
    case Some(data) => DecodeSlot(data)
  }

  function ReadCommit(m: TrustFlash): Option<CommitRecord> {
    match m.commit
    case None => None
    case Some(data) => DecodeCommit(data)
  }

  // Whether the slot holds what the record names.
  predicate Names(c: CommitRecord, r: SlotResult) {
    r.LOADED? && r.snapshot.generation == c.generation && r.snapshot.state.trustRevision == c.trustRevision
  }

  function WriteSlot(m: TrustFlash, slot: nat, state: TrustState, generation: U32): (TrustFlash, Result)
    requires Sound(m) && slot <= 1
  {
    if generation == 0 || !ValidState(state) then (m, InvalidState)
    else
      var (m1, saved) := SaveSlot(m, slot, SlotBytes(state, generation));
      if !saved then (m1, StorageFailed)
      else
        var (m2, synced) := Sync(m1);
        (m2, if synced then StagedOk else StorageFailed)
  }

  // With a commit record there is no falling back to another slot.
  function Load(m: TrustFlash): (TrustFlash, Result, Snapshot)
    requires Sound(m)
  {
    if m.commit.Some? then
      match ReadCommit(m)
      case None => (m, Corrupt, NO_SNAPSHOT)
      case Some(c) =>
        var r := LoadSlot(m, c.slot);
        if Names(c, r) then (m, Loaded, r.snapshot) else (m, Corrupt, NO_SNAPSHOT)
    else
      var first, second := LoadSlot(m, 0), LoadSlot(m, 1);
      if !first.LOADED? && !second.LOADED? then
        (m, if first.EMPTY? && second.EMPTY? then Empty else Corrupt, NO_SNAPSHOT)
      else
        var repaired := Newer(first, second);
        var snapshot := if repaired == 0 then first.snapshot else second.snapshot;
        var (m1, ok) := WriteCommit(m, CommitBytes(CommitRecord(repaired, snapshot.generation, snapshot.state.trustRevision)));
        (m1, if ok then CommitRepaired else StorageFailed, snapshot)
  }

  function Newer(first: SlotResult, second: SlotResult): (slot: nat)
    requires first.LOADED? || second.LOADED?
    ensures slot <= 1 && (slot == 0 ==> first.LOADED?) && (slot == 1 ==> second.LOADED?)
  {
    if second.LOADED? && (!first.LOADED? || second.snapshot.generation > first.snapshot.generation) then 1 else 0
  }

  // The third part is what the caller's snapshot is set to.
  function Create(m: TrustFlash, initial: TrustState): (TrustFlash, Result, Option<Snapshot>)
    requires Sound(m)
  {
    if !ValidState(initial) then (m, InvalidState, None)
    else
      var (m1, wrote) := WriteSlot(m, 0, initial, 1);
      if wrote != StagedOk then (m1, wrote, None)
      else
        var (m2, ok) := WriteCommit(m1, CommitBytes(CommitRecord(0, 1, initial.trustRevision)));
        if ok then (m2, Created, Some(Snapshot(1, initial))) else (m2, StorageFailed, None)
  }

  function StageUpdate(m: TrustFlash, next: TrustState, snapshot: Snapshot): (TrustFlash, Result, Option<Staged>)
    requires Sound(m)
  {
    if snapshot.generation == 0 || !ValidState(next) then (m, InvalidState, None)
    else if !Older(snapshot.state, next) then (m, RollbackRejected, None)
    else
      match ReadCommit(m)
      case None => (m, StorageFailed, None)
      case Some(c) =>
        if c.generation != snapshot.generation || c.trustRevision != snapshot.state.trustRevision then
          (m, StorageFailed, None)
        else if Wrap32(c.generation + 1) == 0 then (m, InvalidState, None)
        else
          var slot := 1 - c.slot;
          var (m1, wrote) := WriteSlot(m, slot, next, Wrap32(c.generation + 1));
          (m1, wrote,
           if wrote == StagedOk then Some(Staged(slot, Wrap32(c.generation + 1), next.trustRevision)) else None)
  }

  function CommitStaged(m: TrustFlash, staged: Option<Staged>, snapshot: Snapshot): (TrustFlash, Result, Snapshot)
    requires Sound(m)
  {
    if staged.None? || staged.value.slot > 1 || staged.value.generation == 0 || snapshot.generation == 0 then
      (m, InvalidState, snapshot)
    else
      var s := staged.value;
      match ReadCommit(m)
      case None => (m, StorageFailed, snapshot)
      case Some(c) =>
        if c.generation != snapshot.generation || c.trustRevision != snapshot.state.trustRevision ||
           s.slot == c.slot || s.generation != Wrap32(c.generation + 1) then (m, StorageFailed, snapshot)
        else
          var r := LoadSlot(m, s.slot);
          var next := CommitRecord(s.slot, s.generation, s.trustRevision);
          if !Names(next, r) then (m, StorageFailed, snapshot)
          else
            var (m1, ok) := WriteCommit(m, CommitBytes(next));
            if ok then (m1, Updated, r.snapshot) else (m1, StorageFailed, snapshot)
  }

  function Update(m: TrustFlash, next: TrustState, snapshot: Snapshot): (TrustFlash, Result, Snapshot)
    requires Sound(m)
  {
    var (m1, stage, staged) := StageUpdate(m, next, snapshot);
    if stage != StagedOk then (m1, stage, snapshot) else CommitStaged(m1, staged, snapshot)
  }
}
