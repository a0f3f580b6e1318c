/** The byte form of a credential registry. */
module CredentialCodec {
  import opened Wrappers
  import opened Bytes
  import opened Credentials
  import opened CredentialRegistry

  const MAGIC: U32 := 0x4E504352
  const STORAGE_VERSION: U16 := 1
  const HEADER_SIZE := 12
  const RECORD_HEADER_SIZE := 48
  const CHECKSUM_SIZE := 4
  const MAX_ENCODED_SIZE := 2144

  datatype Snapshot = Snapshot(slots: Slots, generation: U32)

  datatype DecodeResult = DECODED(snapshot: Snapshot) | INVALID_REGISTRY | EMPTY | CORRUPT | UNSUPPORTED_VERSION

  // Characters beyond one byte do not occur in valid ids.
  function IdBytes(id: string): (s: seq<Byte>)
    ensures |s| == |id|
  {
    seq(|id|, i requires 0 <= i < |id| => if id[i] as int < 256 then id[i] as int else 0)
  }

  // A C string: the characters before the first zero.
  function IdText(s: seq<Byte>): string {
    if s == [] || s[0] == 0 then "" else [s[0] as char] + IdText(s[1..])
  }

  function RecordBytes(c: Credential): (s: seq<Byte>)
    requires |c.id| <= MAX_ID_LENGTH
    ensures |s| == RECORD_HEADER_SIZE + |c.id|
  {
    [if c.enabled then 1 else 0, |c.id|, 0, 0] + BytesU64(c.token) + BytesU32(c.keyVersion) + c.key + IdBytes(c.id)
  }

  predicate ShortIds(records: seq<Credential>) {
    forall i | 0 <= i < |records| :: |records[i].id| <= MAX_ID_LENGTH
  }

  function RecordsBytes(records: seq<Credential>): (s: seq<Byte>)
    requires ShortIds(records)
    ensures |s| <= |records| * (RECORD_HEADER_SIZE + MAX_ID_LENGTH)
  {
    if records == [] then [] else RecordBytes(records[0]) + RecordsBytes(records[1..])
  }

  function HeaderBytes(count: Byte, generation: U32): (s: seq<Byte>)
    ensures |s| == HEADER_SIZE
  {
    BytesU32(MAGIC) + BytesU16(STORAGE_VERSION) + [count, 0] + BytesU32(generation)
  }

  function BodyBytes(records: seq<Credential>, generation: U32): (s: seq<Byte>)
    requires |records| <= SLOTS && ShortIds(records)
    ensures |s| + CHECKSUM_SIZE <= MAX_ENCODED_SIZE
  {
    HeaderBytes(|records|, generation) + RecordsBytes(records)
  }

  // The encoded registry; it never exceeds the fixed bound.
  function Encoded(records: seq<Credential>, generation: U32): (s: seq<Byte>)
    requires |records| <= SLOTS && ShortIds(records)
    ensures HEADER_SIZE + CHECKSUM_SIZE <= |s| <= MAX_ENCODED_SIZE
  {
    BodyBytes(records, generation) + BytesU32(Fnv1a(BodyBytes(records, generation)))
  }

  function RecordAt(data: seq<Byte>, cursor: nat): Credential
    requires cursor + RECORD_HEADER_SIZE <= |data| && cursor + RECORD_HEADER_SIZE + data[cursor + 1] <= |data|
  {
    Credential(data[cursor] == 1,
               IdText(data[cursor + RECORD_HEADER_SIZE..cursor + RECORD_HEADER_SIZE + data[cursor + 1]]),
               ReadU64(data[cursor + 4..]), ReadU32(data[cursor + 12..]), data[cursor + 16..cursor + 48])
  }

  // The records from `cursor` on are set one by one.  None stands for a broken layout.
  function DecodeRecords(data: seq<Byte>, cursor: nat, count: nat, slots: Slots): (r: (DecodeResult, nat))
    decreases count
  {
    if count == 0 then (DECODED(Snapshot(slots, 0)), cursor)
    else if cursor + RECORD_HEADER_SIZE + CHECKSUM_SIZE > |data| then (CORRUPT, cursor)
    else
      var idLength := data[cursor + 1];
      if data[cursor] > 1 || idLength == 0 || idLength > MAX_ID_LENGTH ||
         cursor + RECORD_HEADER_SIZE + idLength + CHECKSUM_SIZE > |data| then (CORRUPT, cursor)
      else
        var (next, set') := Set(slots, RecordAt(data, cursor));
        if set' != OK then (INVALID_REGISTRY, cursor)
        else DecodeRecords(data, cursor + RECORD_HEADER_SIZE + idLength, count - 1, next)
  }

  function Decode(data: seq<Byte>): DecodeResult {
    if |data| < HEADER_SIZE + CHECKSUM_SIZE then EMPTY
    else if ReadU32(data) != MAGIC then CORRUPT
    else if ReadU16(data[4..]) != STORAGE_VERSION then UNSUPPORTED_VERSION
    else
      var count, generation := data[6], ReadU32(data[8..]);
      if count > SLOTS || generation == 0 then CORRUPT
      else
        var (r, cursor) := DecodeRecords(data, HEADER_SIZE, count, Blank(SLOTS));
        if !r.DECODED? then r
        else if cursor + CHECKSUM_SIZE != |data| || ReadU32(data[cursor..]) != Fnv1a(data[..cursor]) then CORRUPT
        else DECODED(Snapshot(r.snapshot.slots, generation))
  }

  // ---------------------------------------------------------------- round trip

  lemma {:induction false} IdRoundTrip(id: string)
    requires forall i | 0 <= i < |id| :: 0 < id[i] as int < 256
    ensures IdText(IdBytes(id)) == id
  {
    if id != "" {
      assert IdBytes(id)[1..] == IdBytes(id[1..]);
      IdRoundTrip(id[1..]);
      assert [id[0]] + id[1..] == id;
    }
  }

  lemma RecordRoundTrip(data: seq<Byte>, cursor: nat, c: Credential)
    requires ValidCredential(c) && HasAt(data, cursor, RecordBytes(c))
    ensures data[cursor] <= 1 && data[cursor + 1] == |c.id| && RecordAt(data, cursor) == c
  {
    hide BytesU64, BytesU32, ReadU64, ReadU32, IdBytes;
    var head: seq<Byte> := [if c.enabled then 1 else 0, |c.id|, 0, 0];
    var a := head + BytesU64(c.token);
    var b := a + BytesU32(c.keyVersion);
    HasAtSplit(data, cursor, b + c.key, IdBytes(c.id));
    HasAtSplit(data, cursor, b, c.key);
    HasAtSplit(data, cursor, a, BytesU32(c.keyVersion));
    HasAtSplit(data, cursor, head, BytesU64(c.token));
    assert data[cursor..cursor + 4][0] == head[0] && data[cursor..cursor + 4][1] == head[1];
    HasAtU64(data, cursor + 4, c.token);
    HasAtU32(data, cursor + 12, c.keyVersion);
    IdRoundTrip(c.id);
  }

  lemma {:induction false} DecodeRecordsOf(data: seq<Byte>, cursor: nat, done: seq<Credential>, rest: seq<Credential>)
    requires DistinctRecords(done + rest) && |done + rest| <= SLOTS && ShortIds(rest)
    requires HasAt(data, cursor, RecordsBytes(rest)) && cursor + |RecordsBytes(rest)| + CHECKSUM_SIZE <= |data|
    ensures DecodeRecords(data, cursor, |rest|, Packed(done, SLOTS)) ==
            (DECODED(Snapshot(Packed(done + rest, SLOTS), 0)), cursor + |RecordsBytes(rest)|)
    decreases |rest|
  {
    hide Set, RecordAt, RecordBytes, Packed;
    if rest == [] {
      assert done + rest == done;
    } else {
      assert done + rest == done + [rest[0]] + rest[1..];
      HasAtSplit(data, cursor, RecordBytes(rest[0]), RecordsBytes(rest[1..]));
      DecodeOne(data, cursor, done, rest);
      DecodeRecordsOf(data, cursor + RECORD_HEADER_SIZE + |rest[0].id|, done + [rest[0]], rest[1..]);
    }
  }

  lemma DecodeOne(data: seq<Byte>, cursor: nat, done: seq<Credential>, rest: seq<Credential>)
    requires rest != [] && DistinctRecords(done + rest) && |done + rest| <= SLOTS && ShortIds(rest)
    requires HasAt(data, cursor, RecordBytes(rest[0])) && cursor + |RecordBytes(rest[0])| + CHECKSUM_SIZE <= |data|
    ensures DecodeRecords(data, cursor, |rest|, Packed(done, SLOTS)) ==
            DecodeRecords(data, cursor + RECORD_HEADER_SIZE + |rest[0].id|, |rest| - 1, Packed(done + [rest[0]], SLOTS))
  {
    hide Set, RecordAt, RecordBytes, Packed;
    var c := rest[0];
    assert c == (done + rest)[|done|];
    RecordRoundTrip(data, cursor, c);
    assert DistinctRecords(done + [c]) by {
      assert done + [c] == (done + rest)[..|done| + 1];
    }
    SetAppends(done, c);
  }

  lemma HeaderOf(data: seq<Byte>, count: Byte, generation: U32)
    requires HasAt(data, 0, HeaderBytes(count, generation))
    ensures ReadU32(data) == MAGIC && ReadU16(data[4..]) == STORAGE_VERSION && data[6] == count
    ensures ReadU32(data[8..]) == generation
  {
    hide BytesU32, BytesU16, ReadU32, ReadU16;
    var a := BytesU32(MAGIC) + BytesU16(STORAGE_VERSION);
    HasAtSplit(data, 0, a + [count, 0], BytesU32(generation));
    HasAtSplit(data, 0, a, [count, 0]);
    HasAtSplit(data, 0, BytesU32(MAGIC), BytesU16(STORAGE_VERSION));
    HasAtU32(data, 8, generation);
    HasAtU16(data, 4, STORAGE_VERSION);
    HasAtU32(data, 0, MAGIC);
    assert data[0..] == data;
    assert data[6..8][0] == count;
  }

  lemma RecordsRoundTrip(records: seq<Credential>, generation: U32)
    requires DistinctRecords(records) && |records| <= SLOTS && generation != 0
    ensures ShortIds(records)
    ensures Decode(Encoded(records, generation)) == DECODED(Snapshot(Packed(records, SLOTS), generation))
  {
    var data := Encoded(records, generation);
    var body := BodyBytes(records, generation);
    hide DecodeRecords, HeaderBytes, BytesU32, ReadU32, ReadU16, RecordsBytes, Fnv1a, BodyBytes, Packed;
    HasAtSplit(data, 0, body, BytesU32(Fnv1a(body)));
    BodyOf(data, records, generation);
    HasAtU32(data, |body|, Fnv1a(body));
    assert data[..|body|] == body;
  }

  lemma BodyOf(data: seq<Byte>, records: seq<Credential>, generation: U32)
    requires DistinctRecords(records) && |records| <= SLOTS && ShortIds(records)
    requires HasAt(data, 0, BodyBytes(records, generation))
    requires |BodyBytes(records, generation)| + CHECKSUM_SIZE <= |data|
    ensures ReadU32(data) == MAGIC && ReadU16(data[4..]) == STORAGE_VERSION && data[6] == |records|
    ensures ReadU32(data[8..]) == generation
    ensures DecodeRecords(data, HEADER_SIZE, |records|, Blank(SLOTS)) ==
            (DECODED(Snapshot(Packed(records, SLOTS), 0)), |BodyBytes(records, generation)|)
  {
    hide DecodeRecords, HeaderBytes, ReadU32, ReadU16, RecordsBytes;
    HasAtSplit(data, 0, HeaderBytes(|records|, generation), RecordsBytes(records));
    HeaderOf(data, |records|, generation);
    assert Blank(SLOTS) == Packed([], SLOTS) && [] + records == records;
    DecodeRecordsOf(data, HEADER_SIZE, [], records);
  }

  // Encoding and decoding a reachable registry keeps the generation and the records, in slot
  // order and compacted; every lookup gives the same answer.
  lemma RoundTrip(slots: Slots, generation: U32, id: string)
    requires |slots| == SLOTS && ValidSlots(slots) && generation != 0
    ensures ShortIds(Records(slots)) && |Encoded(Records(slots), generation)| <= MAX_ENCODED_SIZE
    ensures Decode(Encoded(Records(slots), generation)) == DECODED(Snapshot(Compact(slots), generation))
    ensures ValidSlots(Compact(slots)) && Find(Compact(slots), id) == Find(slots, id)
  {
    RecordsDistinct(slots);
    RecordsRoundTrip(Records(slots), generation);
    CompactKeeps(slots, id);
  }
}
