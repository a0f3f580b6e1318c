/** The credential store over its storage backend. */
module CredentialStore {
  import opened Wrappers
  import opened Bytes
  import opened CommitRecords
  import opened Credentials
  import opened CredentialRegistry
  import opened CredentialCodec
  import opened CredentialMedium
  import Flash

  type Backend = Flash.Device<Blob, CommitBlob>

  lemma FiveParts(before: seq<Byte>, a: seq<Byte>, b: seq<Byte>, c: seq<Byte>, d: seq<Byte>, e: seq<Byte>)
    ensures before + a + b + c + d + e == before + (a + b + c + d + e)
  {
  }

  class Store {
    const blob: array<Byte>

    ghost predicate Valid() {
      blob.Length == BLOB_SIZE
    }

    constructor ()
      ensures Valid() && fresh(blob)
    {
      blob := new Byte[BLOB_SIZE](_ => 0);
    }

    // Copy a record into the blob at the cursor.
    method PutRecord(c: Credential, cursor: nat) returns (next: nat)
      requires Valid() && |c.id| <= MAX_ID_LENGTH && cursor + RECORD_HEADER_SIZE + |c.id| <= FOOTER
      modifies blob
      ensures next == cursor + |RecordBytes(c)| && blob[..next] == old(blob[..cursor]) + RecordBytes(c)
      ensures forall i | next <= i < blob.Length :: blob[i] == old(blob[i])
    {
      hide BytesU64, BytesU32, IdBytes;
      ghost var before := blob[..cursor];
      ghost var head: seq<Byte> := [if c.enabled then 1 else 0, |c.id|, 0, 0];
      next := Put(blob, cursor, [if c.enabled then 1 else 0, |c.id|, 0, 0]);
      next := Put(blob, next, BytesU64(c.token));
      next := Put(blob, next, BytesU32(c.keyVersion));
      next := Put(blob, next, c.key);
      next := Put(blob, next, IdBytes(c.id));
      FiveParts(before, head, BytesU64(c.token), BytesU32(c.keyVersion), c.key, IdBytes(c.id));
    }

    // The occupied slots, one record after the other.
    method PutRecords(registry: Registry, start: nat) returns (cursor: nat)
      requires Valid() && registry.Valid() && blob as object != registry.entries
      requires ShortIds(Records(registry.entries[..]))
      requires start + |RecordsBytes(Records(registry.entries[..]))| <= FOOTER
      modifies blob
      ensures blob.Length >= cursor && cursor == start + |RecordsBytes(Records(registry.entries[..]))|
      ensures blob[..cursor] == old(blob[..start]) + RecordsBytes(Records(registry.entries[..]))
      ensures forall i | cursor <= i < blob.Length :: blob[i] == old(blob[i])
    {
      hide RecordBytes;
      cursor := start;
      ghost var all := old(blob[..start]) + RecordsBytes(Records(registry.entries[..]));
      for slot := 0 to registry.entries.Length
        invariant ShortIds(Records(registry.entries[slot..])) && cursor <= blob.Length
        invariant blob[..cursor] + RecordsBytes(Records(registry.entries[slot..])) == all
        invariant forall i | cursor <= i < blob.Length :: blob[i] == old(blob[i])
      {
        ghost var tail := registry.entries[slot..];
        ghost var before := blob[..cursor];
        assert tail[1..] == registry.entries[slot + 1..];
        if registry.entries[slot].Some? {
          var c := registry.entries[slot].value;
          assert Records(tail)[0] == c && Records(tail)[1..] == Records(tail[1..]);
          ghost var more := RecordsBytes(Records(tail[1..]));
          assert |all| == |before| + (|RecordBytes(c)| + |more|);
          cursor := PutRecord(c, cursor);
          assert before + (RecordBytes(c) + more) == before + RecordBytes(c) + more;
        }
      }
    }

    // A registry never holds a record that the source would refuse here.
    method EncodeRegistry(registry: Registry, generation: U32) returns (ok: bool, size: nat)
      requires Valid() && registry.Valid() && blob as object != registry.entries
      modifies blob
      ensures ok == (generation != 0) && size <= blob.Length
      ensures ok ==>
                && ShortIds(Records(registry.entries[..])) && size == |Encoded(Records(registry.entries[..]), generation)|
                && blob[..size] == Encoded(Records(registry.entries[..]), generation)
      ensures forall i | size <= i < blob.Length :: blob[i] == old(blob[i])
      ensures !ok ==> blob[..] == old(blob[..])
    {
      ok, size := generation != 0, 0;
      if !ok { return; }
      RecordsDistinct(registry.entries[..]);
      var count := registry.Size();
      hide CredentialCodec.HeaderBytes, BytesU32, Fnv1a, RecordsBytes, ValidSlots;
      var cursor: nat := Put(blob, 0, CredentialCodec.HeaderBytes(count, generation));
      assert blob[..cursor] == CredentialCodec.HeaderBytes(count, generation);
      cursor := PutRecords(registry, cursor);
      var sum := Checksum(blob, cursor);
      size := Put(blob, cursor, BytesU32(sum));
    }

    // Sets the records of an encoded registry one by one.
    method DecodeRegistry(data: seq<Byte>, registry: Registry) returns (r: DecodeResult)
      requires registry.Valid()
      modifies registry.entries
      ensures registry.Valid() && r == Decode(data)
      ensures r.DECODED? ==> registry.entries[..] == r.snapshot.slots
    {
      hide BytesU32, ReadU64, Fnv1a, ValidSlots, RecordAt, Credentials.Set;
      if |data| < HEADER_SIZE + CHECKSUM_SIZE { return EMPTY; }
      if ReadU32(data) != MAGIC { return CORRUPT; }
      if ReadU16(data[4..]) != STORAGE_VERSION { return UNSUPPORTED_VERSION; }
      var count, generation := data[6], ReadU32(data[8..]);
      if count > SLOTS || generation == 0 { return CORRUPT; }
      registry.Clear();
      ghost var goal := DecodeRecords(data, HEADER_SIZE, count, Blank(SLOTS));
      var cursor: nat := HEADER_SIZE;
      for index := 0 to count
        invariant registry.Valid() && HEADER_SIZE <= cursor
        invariant DecodeRecords(data, cursor, count - index, registry.entries[..]) == goal
        invariant index > 0 ==> cursor + CHECKSUM_SIZE <= |data|
      {
        if cursor + RECORD_HEADER_SIZE + CHECKSUM_SIZE > |data| { return CORRUPT; }
        var idLength := data[cursor + 1];
        if data[cursor] > 1 || idLength == 0 || idLength > MAX_ID_LENGTH ||
           cursor + RECORD_HEADER_SIZE + idLength + CHECKSUM_SIZE > |data| { return CORRUPT; }
        var result := registry.Set(RecordAt(data, cursor));
        if result != OK { return INVALID_REGISTRY; }
        cursor := cursor + RECORD_HEADER_SIZE + idLength;
      }
      if cursor + CHECKSUM_SIZE != |data| || ReadU32(data[cursor..]) != Fnv1a(data[..cursor]) { return CORRUPT; }
      r := DECODED(Snapshot(registry.entries[..], generation));
    }

    method FillBlob(registry: Registry, generation: U32) returns (ok: bool)
      requires Valid() && registry.Valid() && blob as object != registry.entries
      modifies blob
      ensures ok == (generation != 0) && (ok ==> blob[..] == BlobBytes(registry.entries[..], generation))
    {
      Fill(blob);
      var size;
      ok, size := EncodeRegistry(registry, generation);
      if !ok { return; }
      hide Encoded, ValidSlots, BytesU32;
      ghost var payload := Encoded(Records(registry.entries[..]), generation);
      assert blob[..FOOTER] == payload + Zeros(FOOTER - |payload|);
      var end := Put(blob, FOOTER, BytesU32(size));
      assert blob[..] == blob[..end];
    }

    method Write(backend: Backend, slot: nat, registry: Registry, generation: U32) returns (r: StoreResult)
      requires Valid() && backend.Valid() && registry.Valid() && slot <= 1 && blob as object != registry.entries
      requires backend.slots as object != registry.entries
      modifies blob, backend, backend.slots
      ensures (backend.View(), r) == CredentialMedium.Write(old(backend.View()), slot, registry.entries[..], generation)
    {
      hide ValidSlots, CommitBytes, BlobBytes;
      var ok := FillBlob(registry, generation);
      if !ok { return InvalidRegistry; }
      ok := backend.WriteSlot(slot, blob[..]);
      if !ok { return StorageFailed; }
      ok := backend.Flush();
      if !ok { return StorageFailed; }
      ok := backend.CommitAndFlush(CommitBytes(CommitRecord(slot, generation)));
      r := if ok then Updated else StorageFailed;
    }

    method LoadSlot(backend: Backend, slot: nat) returns (r: DecodeResult)
      requires backend.Valid() && slot <= 1
      ensures r == CredentialMedium.LoadSlot(backend.View(), slot)
    {
      match backend.slots[slot]
      case None => r := EMPTY;
      case Some(data) => r := DecodeBlob(data);
    }

    method Load(backend: Backend) returns (r: StoreResult, snapshot: Snapshot)
      requires backend.Valid()
      modifies backend
      ensures (backend.View(), r, snapshot) == CredentialMedium.Load(old(backend.View()))
    {
      hide DecodeCommit, CommitBytes, DecodeBlob;
      if backend.commit.Some? {
        var c := DecodeCommit(backend.commit.value);
        if c.Some? {
          var loaded := LoadSlot(backend, c.value.slot);
          if loaded.DECODED? && loaded.snapshot.generation == c.value.generation {
            return Loaded, loaded.snapshot;
          }
        }
      }
      var first := LoadSlot(backend, 0);
      var second := LoadSlot(backend, 1);
      if !first.DECODED? && !second.DECODED? {
        return (if first.EMPTY? && second.EMPTY? then Empty else Corrupt), NO_SNAPSHOT;
      }
      var repaired := 0;
      snapshot := if first.DECODED? then first.snapshot else NO_SNAPSHOT;
      if second.DECODED? && (!first.DECODED? || second.snapshot.generation > first.snapshot.generation) {
        repaired, snapshot := 1, second.snapshot;
      }
      var ok := backend.CommitAndFlush(CommitBytes(CommitRecord(repaired, snapshot.generation)));
      r := if ok then CommitRepaired else StorageFailed;
    }

    method Create(backend: Backend, registry: Registry) returns (r: StoreResult, snapshot: Option<Snapshot>)
      requires Valid() && backend.Valid() && registry.Valid() && blob as object != registry.entries
      requires backend.slots as object != registry.entries
      modifies blob, backend, backend.slots
      ensures (backend.View(), r, snapshot) == CredentialMedium.Create(old(backend.View()), registry.entries[..])
    {
      hide CredentialMedium.Write, ValidSlots;
      snapshot := None;
      r := Write(backend, 0, registry, 1);
      if r == Updated {
        r, snapshot := Created, Some(Snapshot(registry.entries[..], 1));
      }
    }

    method Update(backend: Backend, registry: Registry, generation: U32)
      returns (r: StoreResult, snapshot: Option<Snapshot>)
      requires Valid() && backend.Valid() && registry.Valid() && blob as object != registry.entries
      requires backend.slots as object != registry.entries
      modifies blob, backend, backend.slots
      ensures (backend.View(), r, snapshot) == CredentialMedium.Update(old(backend.View()), registry.entries[..], generation)
    {
      hide CredentialMedium.Write, ValidSlots, DecodeCommit;
      snapshot := None;
      if generation == 0 { return InvalidRegistry, None; }
      var c: Option<CommitRecord> := None;
      if backend.commit.Some? {
        c := DecodeCommit(backend.commit.value);
      }
      if c.None? || c.value.generation != generation { return StorageFailed, None; }
      var next := Wrap32(generation + 1);
      if next == 0 { return InvalidRegistry, None; }
      r := Write(backend, if c.value.slot == 0 then 1 else 0, registry, next);
      if r == Updated {
        snapshot := Some(Snapshot(registry.entries[..], next));
      }
    }
  }
}
