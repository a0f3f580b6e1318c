/** The byte layout of the keyring slots and of the commit record. */
module TrustCodec {
  import opened Wrappers
  import opened Bytes
  import opened FirmwareTrust

  const STORE_MAGIC: seq<Byte> := [0x4E, 0x41, 0x4D, 0x4F, 0x54, 0x52, 0x53, 0x31]
  const COMMIT_MAGIC: seq<Byte> := [0x4E, 0x41, 0x4D, 0x4F, 0x54, 0x52, 0x43, 0x31]
  const STORE_VERSION: U16 := 1
  const KEY_SIZE := 85
  const BODY_SIZE := 428
  const ENCODED_SIZE := 432
  const SLOT_SIZE := 1024
  const COMMIT_SIZE := 24

  type Slot = s: seq<Byte> | |s| == SLOT_SIZE witness Zeros(1024)
  type Commit = s: seq<Byte> | |s| == COMMIT_SIZE witness Zeros(24)

  datatype Snapshot = Snapshot(generation: U32, state: TrustState)

  datatype SlotResult = EMPTY | CORRUPT | UNSUPPORTED_VERSION | LOADED(snapshot: Snapshot)

  datatype CommitRecord = CommitRecord(slot: Byte, generation: U32, trustRevision: U32)

  function KeyBytes(k: TrustKey): (s: seq<Byte>)
    ensures |s| == KEY_SIZE
  {
    [if k.occupied then 1 else 0, k.role, 0, 0] + k.keyId + k.publicKey
  }

  function KeysBytes(keys: seq<TrustKey>): (s: seq<Byte>)
    ensures |s| == KEY_SIZE * |keys|
  {
    if keys == [] then [] else KeyBytes(keys[0]) + KeysBytes(keys[1..])
  }

  function IdsBytes(ids: seq<KeyId>): (s: seq<Byte>)
    ensures |s| == 16 * |ids|
  {
    if ids == [] then [] else ids[0] + IdsBytes(ids[1..])
  }

  function HeaderBytes(state: TrustState, generation: U32): (s: seq<Byte>)
    ensures |s| == 24
  {
    STORE_MAGIC + BytesU16(STORE_VERSION) + BytesU16(ENCODED_SIZE) + BytesU32(generation) +
    BytesU32(state.trustRevision) + BytesU32(state.minimumSecurityEpoch)
  }

  function BodyBytes(state: TrustState, generation: U32): (s: seq<Byte>)
    ensures |s| == BODY_SIZE
  {
    HeaderBytes(state, generation) + KeysBytes(state.releaseKeys) + KeysBytes(state.developerKeys) +
    IdsBytes(state.revokedKeyIds)
  }

  function SlotBytes(state: TrustState, generation: U32): Slot {
    var body := BodyBytes(state, generation);
    body + BytesU32(Fnv1a(body)) + Zeros(SLOT_SIZE - ENCODED_SIZE)
  }

  function KeyAt(data: seq<Byte>, offset: nat): TrustKey
    requires offset + KEY_SIZE <= |data|
  {
    TrustKey(data[offset] == 1, data[offset + 1], data[offset + 4..offset + 20], data[offset + 20..offset + KEY_SIZE])
  }

  function KeysAt(data: seq<Byte>, offset: nat, count: nat): (keys: seq<TrustKey>)
    requires offset + KEY_SIZE * count <= |data|
    ensures |keys| == count
    decreases count
  {
    if count == 0 then [] else [KeyAt(data, offset)] + KeysAt(data, offset + KEY_SIZE, count - 1)
  }

  function IdsAt(data: seq<Byte>, offset: nat, count: nat): (ids: seq<KeyId>)
    requires offset + 16 * count <= |data|
    ensures |ids| == count
    decreases count
  {
    if count == 0 then [] else [data[offset..offset + 16]] + IdsAt(data, offset + 16, count - 1)
  }

  function SnapshotAt(data: Slot): Snapshot {
    Snapshot(ReadU32(data[12..]),
             TrustState(ReadU32(data[16..]), ReadU32(data[20..]), KeysAt(data, 24, 2), KeysAt(data, 194, 2),
                        IdsAt(data, 364, 4)))
  }

  function DecodeSlot(data: Slot): SlotResult {
    if data[..8] != STORE_MAGIC then if AllZero(data) then EMPTY else CORRUPT
    else if ReadU16(data[8..]) != STORE_VERSION then UNSUPPORTED_VERSION
    else if ReadU16(data[10..]) != ENCODED_SIZE || Fnv1a(data[..BODY_SIZE]) != ReadU32(data[BODY_SIZE..]) then CORRUPT
    else
      var decoded := SnapshotAt(data);
      if decoded.generation == 0 || !ValidState(decoded.state) then CORRUPT else LOADED(decoded)
  }

  function CommitBody(c: CommitRecord): (s: seq<Byte>)
    ensures |s| == 20
  {
    COMMIT_MAGIC + [c.slot, 0, 0, 0] + BytesU32(c.generation) + BytesU32(c.trustRevision)
  }

  function CommitBytes(c: CommitRecord): Commit {
    CommitBody(c) + BytesU32(Fnv1a(CommitBody(c)))
  }

  function DecodeCommit(data: Commit): (r: Option<CommitRecord>)
    ensures r.Some? ==> r.value.slot <= 1 && r.value.generation != 0 && r.value.trustRevision != 0
  {
    if data[..8] != COMMIT_MAGIC || data[8] > 1 || Fnv1a(data[..20]) != ReadU32(data[20..]) then None
    else
      var c := CommitRecord(data[8], ReadU32(data[12..]), ReadU32(data[16..]));
      if c.generation == 0 || c.trustRevision == 0 then None else Some(c)
  }

  // ---------------------------------------------------------------- round trips

  lemma KeyAtOf(data: seq<Byte>, offset: nat, k: TrustKey)
    requires HasAt(data, offset, KeyBytes(k))
    ensures KeyAt(data, offset) == k
  {
    var head: seq<Byte> := [if k.occupied then 1 else 0, k.role, 0, 0];
    HasAtSplit(data, offset, head + k.keyId, k.publicKey);
    HasAtSplit(data, offset, head, k.keyId);
    assert data[offset..offset + 4][0] == head[0] && data[offset..offset + 4][1] == head[1];
  }

  lemma {:induction false} KeysAtOf(data: seq<Byte>, offset: nat, keys: seq<TrustKey>)
    requires HasAt(data, offset, KeysBytes(keys))
    ensures KeysAt(data, offset, |keys|) == keys
    decreases |keys|
  {
    if keys != [] {
      HasAtSplit(data, offset, KeyBytes(keys[0]), KeysBytes(keys[1..]));
      KeyAtOf(data, offset, keys[0]);
      KeysAtOf(data, offset + KEY_SIZE, keys[1..]);
    }
  }

  lemma {:induction false} IdsAtOf(data: seq<Byte>, offset: nat, ids: seq<KeyId>)
    requires HasAt(data, offset, IdsBytes(ids))
    ensures IdsAt(data, offset, |ids|) == ids
    decreases |ids|
  {
    if ids != [] {
      HasAtSplit(data, offset, ids[0], IdsBytes(ids[1..]));
      IdsAtOf(data, offset + 16, ids[1..]);
    }
  }

  lemma HeaderAtOf(data: Slot, state: TrustState, generation: U32)
    requires HasAt(data, 0, HeaderBytes(state, generation))
    ensures data[..8] == STORE_MAGIC && ReadU16(data[8..]) == STORE_VERSION && ReadU16(data[10..]) == ENCODED_SIZE
    ensures ReadU32(data[12..]) == generation && ReadU32(data[16..]) == state.trustRevision
    ensures ReadU32(data[20..]) == state.minimumSecurityEpoch
  {
    hide BytesU32, BytesU16, ReadU32, ReadU16;
    var a := STORE_MAGIC + BytesU16(STORE_VERSION);
    var b := a + BytesU16(ENCODED_SIZE);
    var c := b + BytesU32(generation);
    var d := c + BytesU32(state.trustRevision);
    HasAtSplit(data, 0, d, BytesU32(state.minimumSecurityEpoch));
    HasAtSplit(data, 0, c, BytesU32(state.trustRevision));
    HasAtSplit(data, 0, b, BytesU32(generation));
    HasAtSplit(data, 0, a, BytesU16(ENCODED_SIZE));
    HasAtSplit(data, 0, STORE_MAGIC, BytesU16(STORE_VERSION));
    HasAtU32(data, 20, state.minimumSecurityEpoch);
    HasAtU32(data, 16, state.trustRevision);
    HasAtU32(data, 12, generation);
    HasAtU16(data, 10, ENCODED_SIZE);
    HasAtU16(data, 8, STORE_VERSION);
  }

  lemma BodyAtOf(data: Slot, state: TrustState, generation: U32)
    requires HasAt(data, 0, BodyBytes(state, generation))
    ensures HasAt(data, 0, HeaderBytes(state, generation))
    ensures SnapshotAt(data) == Snapshot(generation, state)
  {
    hide HeaderBytes, KeysBytes, IdsBytes, ReadU32;
    var header := HeaderBytes(state, generation);
    var release, developer := KeysBytes(state.releaseKeys), KeysBytes(state.developerKeys);
    HasAtSplit(data, 0, header + release + developer, IdsBytes(state.revokedKeyIds));
    HasAtSplit(data, 0, header + release, developer);
    HasAtSplit(data, 0, header, release);
    HeaderAtOf(data, state, generation);
    KeysAtOf(data, 24, state.releaseKeys);
    KeysAtOf(data, 194, state.developerKeys);
    IdsAtOf(data, 364, state.revokedKeyIds);
  }

  // Decoding an encoded keyring gives back every field and the generation.
  lemma SlotRoundTrip(state: TrustState, generation: U32)
    requires ValidState(state) && generation != 0
    ensures DecodeSlot(SlotBytes(state, generation)) == LOADED(Snapshot(generation, state))
  {
    hide BodyBytes, HeaderBytes, SnapshotAt, BytesU32, ReadU32, ReadU16, ValidState, Fnv1a;
    var data := SlotBytes(state, generation);
    var body := BodyBytes(state, generation);
    var sum := BytesU32(Fnv1a(body));
    assert HasAt(data, 0, body + sum) by {
      assert data[..ENCODED_SIZE] == body + sum;
    }
    HasAtSplit(data, 0, body, sum);
    BodyAtOf(data, state, generation);
    HeaderAtOf(data, state, generation);
    HasAtU32(data, BODY_SIZE, Fnv1a(body));
  }

  lemma CommitRoundTrip(c: CommitRecord)
    requires c.slot <= 1 && c.generation != 0 && c.trustRevision != 0
    ensures DecodeCommit(CommitBytes(c)) == Some(c)
  {
    hide BytesU32, ReadU32, Fnv1a;
    var data := CommitBytes(c);
    var body := CommitBody(c);
    HasAtSplit(data, 0, body, BytesU32(Fnv1a(body)));
    HasAtU32(data, 20, Fnv1a(body));
    var head: seq<Byte> := COMMIT_MAGIC + [c.slot, 0, 0, 0];
    HasAtSplit(data, 0, head + BytesU32(c.generation), BytesU32(c.trustRevision));
    HasAtSplit(data, 0, head, BytesU32(c.generation));
    HasAtU32(data, 12, c.generation);
    HasAtU32(data, 16, c.trustRevision);
    assert data[0..12] == head;
    assert data[..8] == data[0..12][..8] && data[8] == data[0..12][8];
  }

  // ---------------------------------------------------------------- the buffer code

  method PutKeys(blob: array<Byte>, offset: nat, keys: seq<TrustKey>) returns (next: nat)
    requires offset + KEY_SIZE * |keys| <= blob.Length
    modifies blob
    ensures next == offset + KEY_SIZE * |keys|
    ensures blob[..next] == old(blob[..offset]) + KeysBytes(keys)
    ensures forall i | next <= i < blob.Length :: blob[i] == old(blob[i])
  {
    next := offset;
    for i := 0 to |keys|
      invariant next == offset + KEY_SIZE * i
      invariant blob[..next] + KeysBytes(keys[i..]) == old(blob[..offset]) + KeysBytes(keys)
      invariant forall j | next <= j < blob.Length :: blob[j] == old(blob[j])
    {
      ghost var rest := KeysBytes(keys[i + 1..]);
      ghost var before := blob[..next];
      assert keys[i..][1..] == keys[i + 1..];
      next := Put(blob, next, KeyBytes(keys[i]));
      assert before + KeyBytes(keys[i]) + rest == before + (KeyBytes(keys[i]) + rest);
    }
  }

  method PutIds(blob: array<Byte>, offset: nat, ids: seq<KeyId>) returns (next: nat)
    requires offset + 16 * |ids| <= blob.Length
    modifies blob
    ensures next == offset + 16 * |ids|
    ensures blob[..next] == old(blob[..offset]) + IdsBytes(ids)
    ensures forall i | next <= i < blob.Length :: blob[i] == old(blob[i])
  {
    next := offset;
    for i := 0 to |ids|
      invariant next == offset + 16 * i
      invariant blob[..next] + IdsBytes(ids[i..]) == old(blob[..offset]) + IdsBytes(ids)
      invariant forall j | next <= j < blob.Length :: blob[j] == old(blob[j])
    {
      ghost var rest := IdsBytes(ids[i + 1..]);
      ghost var before := blob[..next];
      assert ids[i..][1..] == ids[i + 1..];
      next := Put(blob, next, ids[i]);
      assert before + ids[i] + rest == before + (ids[i] + rest);
    }
  }

  method PutHeader(blob: array<Byte>, state: TrustState, generation: U32) returns (next: nat)
    requires blob.Length == SLOT_SIZE
    modifies blob
    ensures next == 24 && blob[..next] == HeaderBytes(state, generation)
    ensures forall i | next <= i < blob.Length :: blob[i] == old(blob[i])
  {
    hide BytesU32, BytesU16;
    next := Put(blob, 0, STORE_MAGIC);
    assert blob[..next] == STORE_MAGIC;
    next := Put(blob, next, BytesU16(STORE_VERSION));
    next := Put(blob, next, BytesU16(ENCODED_SIZE));
    next := Put(blob, next, BytesU32(generation));
    next := Put(blob, next, BytesU32(state.trustRevision));
    next := Put(blob, next, BytesU32(state.minimumSecurityEpoch));
  }

  method EncodeState(state: TrustState, generation: U32, blob: array<Byte>) returns (ok: bool)
    requires blob.Length == SLOT_SIZE
    modifies blob
    ensures ok == (generation != 0 && ValidState(state))
    ensures ok ==> blob[..] == SlotBytes(state, generation)
    ensures !ok ==> blob[..] == old(blob[..])
  {
    hide ValidState, HeaderBytes, KeysBytes, IdsBytes, BytesU32, Fnv1a;
    if generation == 0 || !ValidState(state) { return false; }
    Fill(blob);
    var offset := PutHeader(blob, state, generation);
    offset := PutKeys(blob, offset, state.releaseKeys);
    offset := PutKeys(blob, offset, state.developerKeys);
    offset := PutIds(blob, offset, state.revokedKeyIds);
    assert blob[..offset] == BodyBytes(state, generation);
    var sum := Checksum(blob, offset);
    offset := Put(blob, offset, BytesU32(sum));
    assert blob[offset..] == Zeros(SLOT_SIZE - ENCODED_SIZE);
    assert blob[..] == blob[..offset] + blob[offset..];
    ok := true;
  }

  method TakeKeys(data: Slot, offset: nat, count: nat) returns (keys: seq<TrustKey>, next: nat)
    requires offset + KEY_SIZE * count <= |data|
    ensures keys == KeysAt(data, offset, count) && next == offset + KEY_SIZE * count
  {
    hide KeyAt;
    keys, next := [], offset;
    for i := 0 to count
      invariant next == offset + KEY_SIZE * i
      invariant keys + KeysAt(data, next, count - i) == KeysAt(data, offset, count)
    {
      ghost var rest := KeysAt(data, next + KEY_SIZE, count - i - 1);
      assert keys + ([KeyAt(data, next)] + rest) == keys + [KeyAt(data, next)] + rest;
      keys := keys + [KeyAt(data, next)];
      next := next + KEY_SIZE;
    }
  }

  method TakeIds(data: Slot, offset: nat, count: nat) returns (ids: seq<KeyId>)
    requires offset + 16 * count <= |data|
    ensures ids == IdsAt(data, offset, count)
  {
    ids := [];
    for i := 0 to count
      invariant ids + IdsAt(data, offset + 16 * i, count - i) == IdsAt(data, offset, count)
    {
      ghost var rest := IdsAt(data, offset + 16 * (i + 1), count - i - 1);
      var id := data[offset + 16 * i..offset + 16 * i + 16];
      assert ids + ([id] + rest) == ids + [id] + rest;
      ids := ids + [id];
    }
  }

  method DecodeState(data: Slot) returns (r: SlotResult)
    ensures r == DecodeSlot(data)
  {
    hide ValidState, KeysAt, IdsAt, Fnv1a, ReadU32, ReadU16, AllZero;
    if data[..8] != STORE_MAGIC {
      return if AllZero(data) then EMPTY else CORRUPT;
    }
    if ReadU16(data[8..]) != STORE_VERSION { return UNSUPPORTED_VERSION; }
    if ReadU16(data[10..]) != ENCODED_SIZE || Fnv1a(data[..BODY_SIZE]) != ReadU32(data[BODY_SIZE..]) { return CORRUPT; }
    var generation, revision, epoch := ReadU32(data[12..]), ReadU32(data[16..]), ReadU32(data[20..]);
    var releaseKeys, offset := TakeKeys(data, 24, 2);
    var developerKeys;
    developerKeys, offset := TakeKeys(data, offset, 2);
    var revoked := TakeIds(data, offset, 4);
    var state := TrustState(revision, epoch, releaseKeys, developerKeys, revoked);
    if generation == 0 || !ValidState(state) { return CORRUPT; }
    r := LOADED(Snapshot(generation, state));
  }
}
