/** The roster store over its storage backend, with its two slot buffers and its scratch roster. */
module RosterStore {
  import opened Wrappers
  import opened Bytes
  import opened CommitRecords
  import opened SiteConfiguration
  import opened GroupRoster
  import opened RosterMedium
  import Flash

  type Backend = Flash.Device<Blob, CommitBlob>

  class Store {
    const codec: Codec
    var scratch: Roster
    const slotScratch: array<Roster>

    ghost predicate Valid() {
      slotScratch.Length == 2
    }

    constructor (k: Codec)
      ensures Valid() && codec == k && fresh(slotScratch)
    {
      codec, scratch := k, NO_ROSTER;
      slotScratch := new Roster[2](_ => NO_ROSTER);
    }

    method LoadSlot(backend: Backend, slot: nat) returns (readable: bool, content: Decoded)
      requires Valid() && backend.Valid() && slot <= 1
      modifies slotScratch
      ensures readable == backend.slots[slot].Some?
      ensures readable ==> content == SlotContent(codec, backend.View(), slot)
      ensures readable && content.Read? ==> slotScratch[slot] == content.roster
      ensures slotScratch[1 - slot] == old(slotScratch[1 - slot])
    {
      content := NoData;
      readable := backend.slots[slot].Some?;
      if readable {
        content := codec.decode(backend.slots[slot].value);
        slotScratch[slot] := if content.Read? then content.roster else NO_ROSTER;
      }
    }

    method Load(backend: Backend) returns (r: RosterStoreResult, roster: Option<Roster>)
      requires Valid() && backend.Valid() && slotScratch as object != backend.slots
      modifies slotScratch, backend
      ensures (backend.View(), r, roster) == RosterMedium.Load(codec, old(backend.View()))
    {
      hide DecodeCommit, CommitBytes, Flash.WriteCommit;
      ghost var was := backend.View();
      roster := None;
      var readable0, first := LoadSlot(backend, 0);
      var readable1, second := LoadSlot(backend, 1);
      if !readable0 || !readable1 || backend.commit.None? { return StorageFailed, None; }
      assert backend.View() == was;
      var c := DecodeCommit(backend.commit.value);
      if c.Some? {
        var named := if c.value.slot == 0 then first else second;
        if named.Read? && slotScratch[c.value.slot].generation == c.value.generation {
          return Loaded, Some(slotScratch[c.value.slot]);
        }
      }
      var selected := -1;
      if first.Read? {
        selected := 0;
      }
      if second.Read? && (selected < 0 || slotScratch[1].generation > slotScratch[0].generation) {
        selected := 1;
      }
      if selected < 0 { return Failure(first, second), None; }
      var ok := backend.CommitAndFlush(CommitBytes(CommitRecord(selected, slotScratch[selected].generation)));
      if !ok { return StorageFailed, None; }
      return CommitRepaired, Some(slotScratch[selected]);
    }

    method WriteSlot(backend: Backend, slot: nat, roster: Roster) returns (r: RosterStoreResult)
      requires Valid() && backend.Valid() && slot <= 1
      modifies backend, backend.slots
      ensures (backend.View(), r) == RosterMedium.Write(codec, old(backend.View()), slot, roster)
    {
      hide CommitBytes;
      var blob := codec.encode(roster);
      if blob.None? { return Refused; }
      var ok := backend.WriteSlot(slot, blob.value);
      if !ok { return StorageFailed; }
      ok := backend.Flush();
      if !ok { return StorageFailed; }
      ok := backend.CommitAndFlush(CommitBytes(CommitRecord(slot, roster.generation)));
      r := if ok then Updated else StorageFailed;
    }

    method Create(backend: Backend, roster: Roster) returns (r: RosterStoreResult, stored: Option<Roster>)
      requires Valid() && backend.Valid()
      modifies this`scratch, backend, backend.slots
      ensures (backend.View(), r, stored) == RosterMedium.Create(codec, old(backend.View()), roster)
    {
      hide ValidRoster, Write;
      stored := None;
      if !ValidRoster(roster) { return Refused, None; }
      scratch := roster.(generation := 1);
      r := WriteSlot(backend, 0, scratch);
      if r == Updated {
        r, stored := Created, Some(scratch);
      }
    }

    method Update(backend: Backend, roster: Roster) returns (r: RosterStoreResult, stored: Option<Roster>)
      requires Valid() && backend.Valid() && slotScratch as object != backend.slots
      modifies this`scratch, slotScratch, backend, backend.slots
      ensures (backend.View(), r, stored) == RosterMedium.Update(codec, old(backend.View()), roster)
    {
      hide ValidRoster, SamePayload, Write, RosterMedium.Load, DecodeCommit;
      var current;
      r, current := Load(backend);
      stored := None;
      if current.None? { return; }
      scratch := current.value;
      if !ValidRoster(roster) || scratch.generation == MAX_GENERATION { return Refused, None; }
      if SamePayload(scratch, roster) { return Loaded, Some(scratch); }
      var generation := scratch.generation;
      scratch := roster.(generation := generation + 1);
      if backend.commit.None? { return Corrupt, None; }
      var c := DecodeCommit(backend.commit.value);
      if c.None? || c.value.generation != generation { return Corrupt, None; }
      r := WriteSlot(backend, if c.value.slot == 0 then 1 else 0, scratch);
      if r == Updated {
        stored := Some(scratch);
      }
    }

    method LoadOrMigrate(backend: Backend, c: Configuration, groupId: string, leaderId: string)
      returns (r: RosterStoreResult, roster: Option<Roster>)
      requires Valid() && backend.Valid() && slotScratch as object != backend.slots
      modifies this`scratch, slotScratch, backend, backend.slots
      ensures (backend.View(), r, roster) == RosterMedium.LoadOrMigrate(codec, old(backend.View()), c, groupId, leaderId)
    {
      hide PrepareRoster, RosterMedium.Create, RosterMedium.Load;
      r, roster := Load(backend);
      if r != Empty { return; }
      var (prepared, result) := PrepareRoster(c, groupId, leaderId);
      if result != RosterOk { return Empty, None; }
      scratch := prepared;
      r, roster := Create(backend, scratch);
      if r == Created { r := Migrated; }
    }
  }
}
