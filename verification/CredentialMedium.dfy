/** The credential store as functions of its medium. */
module CredentialMedium {
  import opened Wrappers
  import opened Bytes
  import opened CommitRecords
  import opened Credentials
  import opened CredentialCodec
  import opened Flash

  const COMMIT_MAGIC: U32 := 0x4E504343
  const BLOB_SIZE := 2148
  const FOOTER := 2144

  type Blob = s: seq<Byte> | |s| == BLOB_SIZE witness Zeros(2148)

  type CredentialFlash = Flash.Medium<Blob, CommitBlob>
  type CredentialFault = Flash.Fault<Blob, CommitBlob>

  datatype StoreResult =
    | Empty | Loaded | Created | Updated | CommitRepaired | Corrupt | UnsupportedVersion | StorageFailed | InvalidRegistry

  // The payload, zeros, and its length in the last four bytes.
  function BlobBytes(slots: Slots, generation: U32): Blob
    requires |slots| == SLOTS && ValidSlots(slots)
  {
    RecordsDistinct(slots);
    var payload := Encoded(Records(slots), generation);
    payload + Zeros(FOOTER - |payload|) + BytesU32(|payload|)
  }

  function DecodeBlob(data: Blob): DecodeResult {
    var size := ReadU32(data[FOOTER..]);
    if size < HEADER_SIZE + CHECKSUM_SIZE || size > FOOTER then CORRUPT else Decode(data[..size])
  }

  function CommitBytes(c: CommitRecord): CommitBlob {
    SealCommit(COMMIT_MAGIC, STORAGE_VERSION, c)
  }

  function DecodeCommit(data: CommitBlob): (r: Option<CommitRecord>)
    ensures r.Some? ==> r.value.slot <= 1 && r.value.generation != 0
  {
    OpenCommit(COMMIT_MAGIC, STORAGE_VERSION, data)
  }

  function LoadSlot(m: CredentialFlash, slot: nat): (r: DecodeResult)
    requires Sound(m) && slot <= 1
  {
    match m.slots[slot]
    case None => EMPTY
    case Some(data) => DecodeBlob(data)
  }

  function ReadCommit(m: CredentialFlash): Option<CommitRecord> {
    match m.commit
    case None => None
    case Some(data) => DecodeCommit(data)
  }

  const NO_SNAPSHOT := Snapshot(Blank(SLOTS), 0)

  function Write(m: CredentialFlash, slot: nat, slots: Slots, generation: U32): (r: (CredentialFlash, StoreResult))
    requires Sound(m) && slot <= 1 && |slots| == SLOTS && ValidSlots(slots)
    ensures Sound(r.0)
  {
    if generation == 0 then (m, InvalidRegistry)
    else
      var (m1, saved) := SaveSlot(m, slot, BlobBytes(slots, generation));
      if !saved then (m1, StorageFailed)
      else
        var (m2, synced) := Sync(m1);
        if !synced then (m2, StorageFailed)
        else
          var (m3, ok) := WriteCommit(m2, CommitBytes(CommitRecord(slot, generation)));
          (m3, if ok then Updated else StorageFailed)
  }

  // The slot the record names, when it holds that generation.
  function Designated(m: CredentialFlash): Option<Snapshot>
    requires Sound(m)
  {
    match ReadCommit(m)
    case None => None
    case Some(c) =>
      var r := LoadSlot(m, c.slot);
      if r.DECODED? && r.snapshot.generation == c.generation then Some(r.snapshot) else None
  }

  function Load(m: CredentialFlash): (r: (CredentialFlash, StoreResult, Snapshot))
    requires Sound(m)
    ensures Sound(r.0)
  {
    match Designated(m)
    case Some(s) => (m, Loaded, s)
    case None =>
      var first, second := LoadSlot(m, 0), LoadSlot(m, 1);
      if !first.DECODED? && !second.DECODED? then
        (m, if first.EMPTY? && second.EMPTY? then Empty else Corrupt, NO_SNAPSHOT)
      else
        var newest := if second.DECODED? && (!first.DECODED? || second.snapshot.generation > first.snapshot.generation)
                      then 1 else 0;
        var s := if newest == 0 then first.snapshot else second.snapshot;
        var (m1, ok) := WriteCommit(m, CommitBytes(CommitRecord(newest, s.generation)));
        (m1, if ok then CommitRepaired else StorageFailed, s)
  }

  // The third part is what the caller's snapshot is set to.
  function Create(m: CredentialFlash, slots: Slots): (r: (CredentialFlash, StoreResult, Option<Snapshot>))
    requires Sound(m) && |slots| == SLOTS && ValidSlots(slots)
    ensures Sound(r.0)
  {
    var (m1, r) := Write(m, 0, slots, 1);
    if r == Updated then (m1, Created, Some(Snapshot(slots, 1))) else (m1, r, None)
  }

  function Update(m: CredentialFlash, slots: Slots, generation: U32): (r: (CredentialFlash, StoreResult, Option<Snapshot>))
    requires Sound(m) && |slots| == SLOTS && ValidSlots(slots)
    ensures Sound(r.0)
  {
    if generation == 0 then (m, InvalidRegistry, None)
    else
      match ReadCommit(m)
      case None => (m, StorageFailed, None)
      case Some(c) =>
        if c.generation != generation then (m, StorageFailed, None)
        else if Wrap32(generation + 1) == 0 then (m, InvalidRegistry, None)
        else
          var (m1, r) := Write(m, 1 - c.slot, slots, Wrap32(generation + 1));
          (m1, r, if r == Updated then Some(Snapshot(slots, Wrap32(generation + 1))) else None)
  }
}
