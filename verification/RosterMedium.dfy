/** The roster store as functions of its medium, over any codec that reads back what it wrote. */
module RosterMedium {
  import opened Wrappers
  import opened Bytes
  import opened CommitRecords
  import opened SiteConfiguration
  import opened GroupRoster
  import opened Flash

  const ROSTER_MAGIC: U32 := 0x4352474E
  const ROSTER_VERSION: U16 := 1
  const ROSTER_BLOB := 4096
  const MAX_GENERATION := 0xFFFF_FFFF

  type Blob = s: seq<Byte> | |s| == ROSTER_BLOB witness Zeros(4096)

  type RosterFlash = Flash.Medium<Blob, CommitBlob>
  type RosterFault = Flash.Fault<Blob, CommitBlob>

  datatype Decoded = Read(roster: Roster) | NoData | BadData | BadVersion | BadRoster

  // `stored` is what a roster reads back as: the same, with its members moved together.
  datatype Codec = Codec(encode: Roster -> Option<Blob>, decode: Blob -> Decoded, stored: Roster -> Roster)

  ghost predicate RoundTrips(k: Codec) {
    && (forall r: Roster | k.encode(r).Some? ::
          k.decode(k.encode(r).value) == Read(k.stored(r)) && k.stored(r).generation == r.generation)
    && (forall b: Blob | k.decode(b).Read? :: k.decode(b).roster.generation != 0)
  }

  datatype RosterStoreResult =
    | Empty | Loaded | Created | Migrated | Updated | CommitRepaired | Corrupt | UnsupportedVersion | StorageFailed | Refused

  function CommitBytes(c: CommitRecord): CommitBlob {
    SealCommit(ROSTER_MAGIC, ROSTER_VERSION, c)
  }

  function DecodeCommit(data: CommitBlob): (r: Option<CommitRecord>)
    ensures r.Some? ==> r.value.slot <= 1 && r.value.generation != 0
  {
    if data[7] != 0 then None else OpenCommit(ROSTER_MAGIC, ROSTER_VERSION, data)
  }

  function ReadCommit(m: RosterFlash): (r: Option<CommitRecord>)
    ensures r.Some? ==> r.value.slot <= 1 && r.value.generation != 0
  {
    match m.commit
    case None => None
    case Some(data) => DecodeCommit(data)
  }

  predicate Readable(m: RosterFlash) {
    Sound(m) && m.slots[0].Some? && m.slots[1].Some? && m.commit.Some?
  }

  // What a slot holds; a slot that cannot be read never gets this far.
  function SlotContent(k: Codec, m: RosterFlash, slot: nat): Decoded {
    if |m.slots| == 2 && slot <= 1 && m.slots[slot].Some? then k.decode(m.slots[slot].value) else NoData
  }

  function Failure(first: Decoded, second: Decoded): RosterStoreResult {
    if first.NoData? && second.NoData? then Empty
    else if first.BadVersion? || second.BadVersion? then UnsupportedVersion
    else if first.BadRoster? || second.BadRoster? then Refused
    else Corrupt
  }

  function Load(k: Codec, m: RosterFlash): (r: (RosterFlash, RosterStoreResult, Option<Roster>))
    ensures r.0.slots == m.slots
  {
    if !Readable(m) then (m, StorageFailed, None)
    else
      var first, second, c := SlotContent(k, m, 0), SlotContent(k, m, 1), ReadCommit(m);
      var named := if c.None? then NoData else if c.value.slot == 0 then first else second;
      if named.Read? && named.roster.generation == c.value.generation then (m, Loaded, Some(named.roster))
      else if !first.Read? && !second.Read? then (m, Failure(first, second), None)
      else
        var selected := if second.Read? && (!first.Read? || second.roster.generation > first.roster.generation) then 1 else 0;
        var roster := if selected == 0 then first.roster else second.roster;
        var (m1, ok) := WriteCommit(m, CommitBytes(CommitRecord(selected, roster.generation)));
        if ok then (m1, CommitRepaired, Some(roster)) else (m1, StorageFailed, None)
  }

  // Encodes a roster into a slot, syncs, and then points the record at it.
  function Write(k: Codec, m: RosterFlash, slot: nat, roster: Roster): (r: (RosterFlash, RosterStoreResult))
    requires Sound(m) && slot <= 1
    ensures Sound(r.0)
  {
    var blob := k.encode(roster);
    if blob.None? then (m, Refused)
    else
      var (m1, saved) := SaveSlot(m, slot, blob.value);
      if !saved then (m1, StorageFailed)
      else
        var (m2, synced) := Sync(m1);
        if !synced then (m2, StorageFailed)
        else
          var (m3, ok) := WriteCommit(m2, CommitBytes(CommitRecord(slot, roster.generation)));
          (m3, if ok then Updated else StorageFailed)
  }

  // The third part is the roster handed back to the caller.
  function Create(k: Codec, m: RosterFlash, roster: Roster): (r: (RosterFlash, RosterStoreResult, Option<Roster>))
    requires Sound(m)
    ensures Sound(r.0)
  {
    if !ValidRoster(roster) then (m, Refused, None)
    else
      var (m1, r) := Write(k, m, 0, roster.(generation := 1));
      if r == Updated then (m1, Created, Some(roster.(generation := 1))) else (m1, r, None)
  }

  function Update(k: Codec, m: RosterFlash, roster: Roster): (r: (RosterFlash, RosterStoreResult, Option<Roster>))
    requires Sound(m)
    ensures Sound(r.0)
  {
    var (m1, loaded, current) := Load(k, m);
    if current.None? then (m1, loaded, None)
    else if !ValidRoster(roster) || current.value.generation == MAX_GENERATION then (m1, Refused, None)
    else if SamePayload(current.value, roster) then (m1, Loaded, current)
    else
      var c := ReadCommit(m1);
      if c.None? || c.value.generation != current.value.generation then (m1, Corrupt, None)
      else
        var next := roster.(generation := current.value.generation + 1);
        var (m2, r) := Write(k, m1, 1 - c.value.slot, next);
        (m2, r, if r == Updated then Some(next) else None)
  }

  function LoadOrMigrate(k: Codec, m: RosterFlash, c: Configuration, groupId: string, leaderId: string)
    : (r: (RosterFlash, RosterStoreResult, Option<Roster>))
    requires Sound(m)
    ensures Sound(r.0)
  {
    var (m1, loaded, current) := Load(k, m);
    if loaded != Empty then (m1, loaded, current)
    else
      var (roster, r) := PrepareRoster(c, groupId, leaderId);
      if r != RosterOk then (m1, Empty, None)
      else
        var (m2, created, stored) := Create(k, m1, roster);
        (m2, if created == Created then Migrated else created, stored)
  }
}
