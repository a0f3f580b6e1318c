/** The keyring store and its storage backend. */
module TrustStore {
  import opened Wrappers
  import opened Bytes
  import opened FirmwareTrust
  import opened TrustCodec
  import opened TrustMedium
  import Flash

  type Backend = Flash.Device<Slot, Commit>

  class Store {
    const blob: array<Byte>

    ghost predicate Valid() {
      blob.Length == SLOT_SIZE
    }

    constructor ()
      ensures Valid() && fresh(blob)
    {
      blob := new Byte[SLOT_SIZE](_ => 0);
    }

    method LoadSlot(backend: Backend, slot: nat) returns (r: SlotResult)
      requires backend.Valid() && slot <= 1
      ensures r == TrustMedium.LoadSlot(backend.View(), slot)
    {
      match backend.slots[slot]
      case None => r := EMPTY;
      case Some(data) => r := DecodeState(data);
    }

    method WriteSlot(backend: Backend, slot: nat, state: TrustState, generation: U32) returns (r: Result)
      requires Valid() && backend.Valid() && slot <= 1
      modifies blob, backend`faults, backend.slots
      ensures (backend.View(), r) == TrustMedium.WriteSlot(old(backend.View()), slot, state, generation)
    {
      hide ValidState, SlotBytes;
      var ok := EncodeState(state, generation, blob);
      if !ok { return InvalidState; }
      ok := backend.WriteSlot(slot, blob[..]);
      if !ok { return StorageFailed; }
      ok := backend.Flush();
      if !ok { return StorageFailed; }
      return StagedOk;
    }

    method Load(backend: Backend) returns (r: Result, snapshot: Snapshot)
      requires backend.Valid()
      modifies backend
      ensures (backend.View(), r, snapshot) == TrustMedium.Load(old(backend.View()))
    {
      hide DecodeCommit, CommitBytes;
      snapshot := NO_SNAPSHOT;
      if backend.commit.Some? {
        var c := DecodeCommit(backend.commit.value);
        if c.None? { return Corrupt, NO_SNAPSHOT; }
        var loaded := LoadSlot(backend, c.value.slot);
        if !loaded.LOADED? || loaded.snapshot.generation != c.value.generation ||
           loaded.snapshot.state.trustRevision != c.value.trustRevision {
          return Corrupt, NO_SNAPSHOT;
        }
        return Loaded, loaded.snapshot;
      }
      var first := LoadSlot(backend, 0);
      var second := LoadSlot(backend, 1);
      if !first.LOADED? && !second.LOADED? {
        return (if first.EMPTY? && second.EMPTY? then Empty else Corrupt), NO_SNAPSHOT;
      }
      var repaired := 0;
      snapshot := if first.LOADED? then first.snapshot else NO_SNAPSHOT;
      if second.LOADED? && (!first.LOADED? || second.snapshot.generation > first.snapshot.generation) {
        repaired, snapshot := 1, second.snapshot;
      }
      var ok := backend.CommitAndFlush(CommitBytes(CommitRecord(repaired, snapshot.generation, snapshot.state.trustRevision)));
      r := if ok then CommitRepaired else StorageFailed;
    }

    method Create(backend: Backend, initial: TrustState) returns (r: Result, snapshot: Option<Snapshot>)
      requires Valid() && backend.Valid()
      modifies blob, backend, backend.slots
      ensures (backend.View(), r, snapshot) == TrustMedium.Create(old(backend.View()), initial)
    {
      hide CommitBytes, SlotBytes;
      if !ValidState(initial) { return InvalidState, None; }
      r := WriteSlot(backend, 0, initial, 1);
      if r != StagedOk { return r, None; }
      var ok := backend.CommitAndFlush(CommitBytes(CommitRecord(0, 1, initial.trustRevision)));
      if !ok { return StorageFailed, None; }
      return Created, Some(Snapshot(1, initial));
    }

    method StageUpdate(backend: Backend, next: TrustState, snapshot: Snapshot) returns (r: Result, staged: Option<Staged>)
      requires Valid() && backend.Valid()
      modifies blob, backend`faults, backend.slots
      ensures (backend.View(), r, staged) == TrustMedium.StageUpdate(old(backend.View()), next, snapshot)
    {
      hide ValidState, TrustMedium.WriteSlot, DecodeCommit;
      staged := None;
      if snapshot.generation == 0 || !ValidState(next) { return InvalidState, None; }
      if next.trustRevision < snapshot.state.trustRevision { return RollbackRejected, None; }
      if next.trustRevision == snapshot.state.trustRevision &&
         next.minimumSecurityEpoch <= snapshot.state.minimumSecurityEpoch {
        return RollbackRejected, None;
      }
      var c: Option<CommitRecord> := None;
      if backend.commit.Some? {
        c := DecodeCommit(backend.commit.value);
      }
      if c.None? || c.value.generation != snapshot.generation ||
         c.value.trustRevision != snapshot.state.trustRevision {
        return StorageFailed, None;
      }
      var nextGeneration := Wrap32(c.value.generation + 1);
      if nextGeneration == 0 { return InvalidState, None; }
      var slot := if c.value.slot == 0 then 1 else 0;
      r := WriteSlot(backend, slot, next, nextGeneration);
      if r == StagedOk {
        staged := Some(Staged(slot, nextGeneration, next.trustRevision));
      }
    }

    method CommitStaged(backend: Backend, staged: Option<Staged>, snapshot: Snapshot)
      returns (r: Result, current: Snapshot)
      requires backend.Valid()
      modifies backend
      ensures (backend.View(), r, current) == TrustMedium.CommitStaged(old(backend.View()), staged, snapshot)
    {
      hide DecodeCommit, CommitBytes, DecodeSlot;
      current := snapshot;
      if staged.None? || staged.value.slot > 1 || staged.value.generation == 0 || snapshot.generation == 0 {
        return InvalidState, snapshot;
      }
      var s := staged.value;
      var c: Option<CommitRecord> := None;
      if backend.commit.Some? {
        c := DecodeCommit(backend.commit.value);
      }
      if c.None? || c.value.generation != snapshot.generation ||
         c.value.trustRevision != snapshot.state.trustRevision || s.slot == c.value.slot ||
         s.generation != Wrap32(c.value.generation + 1) {
        return StorageFailed, snapshot;
      }
      var candidate := LoadSlot(backend, s.slot);
      if !candidate.LOADED? || candidate.snapshot.generation != s.generation ||
         candidate.snapshot.state.trustRevision != s.trustRevision {
        return StorageFailed, snapshot;
      }
      var ok := backend.CommitAndFlush(CommitBytes(CommitRecord(s.slot, s.generation, s.trustRevision)));
      if !ok { return StorageFailed, snapshot; }
      return Updated, candidate.snapshot;
    }

    method Update(backend: Backend, next: TrustState, snapshot: Snapshot) returns (r: Result, current: Snapshot)
      requires Valid() && backend.Valid()
      modifies blob, backend, backend.slots
      ensures (backend.View(), r, current) == TrustMedium.Update(old(backend.View()), next, snapshot)
    {
      hide TrustMedium.StageUpdate, TrustMedium.CommitStaged;
      var staged;
      r, staged := StageUpdate(backend, next, snapshot);
      if r != StagedOk { return r, snapshot; }
      r, current := CommitStaged(backend, staged, snapshot);
    }
  }
}
