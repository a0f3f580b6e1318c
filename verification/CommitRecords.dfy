/** The 16-byte commit record of a two-slot store: magic, version, slot, generation, checksum. */
module CommitRecords {
  import opened Wrappers
  import opened Bytes

  type CommitBlob = s: seq<Byte> | |s| == 16 witness Zeros(16)

  datatype CommitRecord = CommitRecord(slot: Byte, generation: U32)

  function CommitBody(magic: U32, version: U16, c: CommitRecord): (s: seq<Byte>)
    ensures |s| == 12
  {
    BytesU32(magic) + BytesU16(version) + [c.slot, 0] + BytesU32(c.generation)
  }

  function SealCommit(magic: U32, version: U16, c: CommitRecord): CommitBlob {
    CommitBody(magic, version, c) + BytesU32(Fnv1a(CommitBody(magic, version, c)))
  }

  function OpenCommit(magic: U32, version: U16, data: CommitBlob): (r: Option<CommitRecord>)
    ensures r.Some? ==> r.value.slot <= 1 && r.value.generation != 0
  {
    if ReadU32(data) != magic || ReadU16(data[4..]) != version || data[6] > 1 ||
       ReadU32(data[12..]) != Fnv1a(data[..12]) then None
    else if ReadU32(data[8..]) == 0 then None
    else Some(CommitRecord(data[6], ReadU32(data[8..])))
  }

  lemma CommitReads(magic: U32, version: U16, c: CommitRecord)
    requires c.slot <= 1 && c.generation != 0
    ensures OpenCommit(magic, version, SealCommit(magic, version, c)) == Some(c)
    ensures SealCommit(magic, version, c)[7] == 0
  {
    hide BytesU32, ReadU32, BytesU16, ReadU16, Fnv1a;
    var data, body := SealCommit(magic, version, c), CommitBody(magic, version, c);
    var a := BytesU32(magic) + BytesU16(version);
    HasAtSplit(data, 0, body, BytesU32(Fnv1a(body)));
    HasAtU32(data, 12, Fnv1a(body));
    HasAtSplit(data, 0, a + [c.slot, 0], BytesU32(c.generation));
    HasAtSplit(data, 0, a, [c.slot, 0]);
    HasAtSplit(data, 0, BytesU32(magic), BytesU16(version));
    HasAtU32(data, 8, c.generation);
    HasAtU16(data, 4, version);
    HasAtU32(data, 0, magic);
    assert data[0..] == data && data[6..8][0] == c.slot && data[6..8][1] == 0;
  }
}
