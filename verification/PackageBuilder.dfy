/** Building the signed header of an update package, as the release tools do, and reading it back. */
module PackageBuilder {
  import opened Wrappers
  import opened Bytes
  import opened FirmwareTrust
  import opened PackageHeader

  type Digest = s: seq<Byte> | |s| == 32 witness Zeros(32)
  type Text = s: seq<Byte> | |s| == 24 witness Zeros(24)
  type Signature = s: seq<Byte> | |s| == SIGNATURE_SIZE witness Zeros(64)

  datatype Manifest = Manifest(
    role: Role, imageSize: U32, trustRevision: U32, securityEpoch: U32, signerKeyId: KeyId, digest: Digest,
    version: Text, build: Text, revokedKeyId: KeyId, replacementKeyId: KeyId, replacementPublicKey: PublicKey,
    replacementKeyRole: Role)

  function Numbers(m: Manifest): (s: seq<Byte>)
    ensures |s| == 20
  {
    BytesU32(PRODUCT_ID) + BytesU32(HARDWARE_ID) + BytesU32(m.imageSize) + BytesU32(m.trustRevision) +
    BytesU32(m.securityEpoch)
  }

  function Front(m: Manifest): (s: seq<Byte>)
    ensures |s| == 36
  {
    PACKAGE_MAGIC + BytesU16(FORMAT_VERSION) + BytesU16(HEADER_SIZE) + [m.role, ES256_P1363, 0, 0] + Numbers(m)
  }

  function Middle(m: Manifest): (s: seq<Byte>)
    ensures |s| == 96
  {
    m.signerKeyId + m.digest + m.version + m.build
  }

  function Recovery(m: Manifest): (s: seq<Byte>)
    ensures |s| == 98
  {
    m.revokedKeyId + m.replacementKeyId + m.replacementPublicKey + [m.replacementKeyRole]
  }

  // What the signature is made over.
  function SignedPart(m: Manifest): (s: seq<Byte>)
    ensures |s| == SIGNED_SIZE
  {
    Front(m) + Middle(m) + Recovery(m) + Zeros(26)
  }

  function PackageFor(m: Manifest, signature: Signature): Package {
    Package(m.role, m.imageSize, m.trustRevision, m.securityEpoch, m.signerKeyId, m.revokedKeyId, m.replacementKeyRole,
            m.replacementKeyId, m.replacementPublicKey, signature, SignedPart(m))
  }

  predicate GoodRecovery(p: Package) {
    if p.signerRole == ROOT_RECOVERY then CompleteRecovery(p) && p.revokedKeyId != p.replacementKeyId
    else !AnyRecovery(p)
  }

  predicate GoodManifest(m: Manifest) {
    && (m.role == RELEASE || m.role == DEVELOPER || m.role == ROOT_RECOVERY)
    && 0 < m.imageSize <= MAX_IMAGE_SIZE && m.trustRevision != 0 && m.securityEpoch != 0
    && !AllZero(m.signerKeyId) && !AllZero(m.digest) && ValidText(m.version) && ValidText(m.build)
    && GoodRecovery(PackageFor(m, Zeros(SIGNATURE_SIZE)))
  }

  // ---------------------------------------------------------------- reading a built header

  lemma NoFlags()
    ensures BytesU16(0) == [0, 0]
  {
  }

  lemma ZerosAreZero(n: nat)
    ensures AllZero(Zeros(n))
  {
  }

  lemma FrontAt(data: seq<Byte>, m: Manifest)
    requires |data| == HEADER_SIZE && HasAt(data, 0, Front(m))
    ensures data[..8] == PACKAGE_MAGIC && ReadU16(data[8..]) == FORMAT_VERSION && ReadU16(data[10..]) == HEADER_SIZE
    ensures data[12] == m.role && data[13] == ES256_P1363 && ReadU16(data[14..]) == 0
    ensures HasAt(data, 16, Numbers(m))
  {
    hide Numbers, BytesU16, ReadU16;
    var a := PACKAGE_MAGIC + BytesU16(FORMAT_VERSION);
    var b := a + BytesU16(HEADER_SIZE);
    var c: seq<Byte> := [m.role, ES256_P1363, 0, 0];
    HasAtSplit(data, 0, b + c, Numbers(m));
    HasAtSplit(data, 0, b, c);
    HasAtSplit(data, 0, a, BytesU16(HEADER_SIZE));
    HasAtSplit(data, 0, PACKAGE_MAGIC, BytesU16(FORMAT_VERSION));
    HasAtU16(data, 8, FORMAT_VERSION);
    HasAtU16(data, 10, HEADER_SIZE);
    assert data[12..16] == c && data[12..16][0] == m.role && data[12..16][1] == ES256_P1363;
    assert data[14..16] == data[12..16][2..] == [0, 0];
    NoFlags();
    HasAtU16(data, 14, 0);
  }

  lemma NumbersAt(data: seq<Byte>, m: Manifest)
    requires |data| == HEADER_SIZE && HasAt(data, 16, Numbers(m))
    ensures ReadU32(data[16..]) == PRODUCT_ID && ReadU32(data[20..]) == HARDWARE_ID
    ensures ReadU32(data[24..]) == m.imageSize && ReadU32(data[28..]) == m.trustRevision
    ensures ReadU32(data[32..]) == m.securityEpoch
  {
    hide BytesU32, ReadU32;
    var a := BytesU32(PRODUCT_ID) + BytesU32(HARDWARE_ID);
    var b := a + BytesU32(m.imageSize);
    HasAtSplit(data, 16, b + BytesU32(m.trustRevision), BytesU32(m.securityEpoch));
    HasAtSplit(data, 16, b, BytesU32(m.trustRevision));
    HasAtSplit(data, 16, a, BytesU32(m.imageSize));
    HasAtSplit(data, 16, BytesU32(PRODUCT_ID), BytesU32(HARDWARE_ID));
    HasAtU32(data, 16, PRODUCT_ID);
    HasAtU32(data, 20, HARDWARE_ID);
    HasAtU32(data, 24, m.imageSize);
    HasAtU32(data, 28, m.trustRevision);
    HasAtU32(data, 32, m.securityEpoch);
  }

  lemma FieldsAt(data: seq<Byte>, m: Manifest)
    requires |data| == HEADER_SIZE && HasAt(data, 36, Middle(m)) && HasAt(data, 132, Recovery(m))
    ensures data[36..52] == m.signerKeyId && data[52..84] == m.digest
    ensures data[84..108] == m.version && data[108..132] == m.build
    ensures data[132..148] == m.revokedKeyId && data[148..164] == m.replacementKeyId
    ensures data[164..229] == m.replacementPublicKey && data[229] == m.replacementKeyRole
  {
    var x := m.signerKeyId + m.digest;
    HasAtSplit(data, 36, x + m.version, m.build);
    HasAtSplit(data, 36, x, m.version);
    HasAtSplit(data, 36, m.signerKeyId, m.digest);
    var y := m.revokedKeyId + m.replacementKeyId;
    HasAtSplit(data, 132, y + m.replacementPublicKey, [m.replacementKeyRole]);
    HasAtSplit(data, 132, y, m.replacementPublicKey);
    HasAtSplit(data, 132, m.revokedKeyId, m.replacementKeyId);
    assert data[229..230][0] == m.replacementKeyRole;
  }

  lemma PartsAt(m: Manifest, signature: Signature)
    ensures var data := SignedPart(m) + signature;
            && HasAt(data, 0, Front(m)) && HasAt(data, 36, Middle(m)) && HasAt(data, 132, Recovery(m))
            && data[230..SIGNED_SIZE] == Zeros(26) && data[SIGNED_SIZE..] == signature && data[..SIGNED_SIZE] == SignedPart(m)
  {
    hide Front, Middle, Recovery;
    var data := SignedPart(m) + signature;
    var rest := Zeros(26);
    assert data[0..SIGNED_SIZE] == Front(m) + Middle(m) + Recovery(m) + rest;
    HasAtSplit(data, 0, Front(m) + Middle(m) + Recovery(m), rest);
    HasAtSplit(data, 0, Front(m) + Middle(m), Recovery(m));
    HasAtSplit(data, 0, Front(m), Middle(m));
  }

  // A header made from a manifest and a signature is read exactly when the manifest is good, and then
  // gives back every field.
  lemma BuiltParses(m: Manifest, signature: Signature)
    ensures ParseHeader(SignedPart(m) + signature).Parsed? <==> GoodManifest(m)
    ensures GoodManifest(m) ==> ParseHeader(SignedPart(m) + signature) == Parsed(PackageFor(m, signature))
  {
    hide SignedPart, Front, Middle, Recovery, Numbers, ValidText, ReadU32, ReadU16, AllZero, HasAt;
    var data := SignedPart(m) + signature;
    PartsAt(m, signature);
    FrontAt(data, m);
    NumbersAt(data, m);
    FieldsAt(data, m);
    ZerosAreZero(26);
    assert PackageOf(data) == PackageFor(m, signature);
  }

  // ---------------------------------------------------------------- rebuilding a read header

  function ManifestOf(data: seq<Byte>): Manifest
    requires |data| == HEADER_SIZE
  {
    Manifest(data[12], ReadU32(data[24..]), ReadU32(data[28..]), ReadU32(data[32..]), data[36..52], data[52..84],
             data[84..108], data[108..132], data[132..148], data[148..164], data[164..229], data[229])
  }

  lemma NumbersOf(data: seq<Byte>)
    requires |data| == HEADER_SIZE && ReadU32(data[16..]) == PRODUCT_ID && ReadU32(data[20..]) == HARDWARE_ID
    ensures Numbers(ManifestOf(data)) == data[16..36]
  {
    hide BytesU32, ReadU32;
    ReadU32At(data, 16);
    ReadU32At(data, 20);
    ReadU32At(data, 24);
    ReadU32At(data, 28);
    ReadU32At(data, 32);
    assert data[16..20] + data[20..24] + data[24..28] + data[28..32] + data[32..36] == data[16..36];
  }

  lemma FrontOf(data: seq<Byte>)
    requires ParseHeader(data).Parsed?
    ensures Front(ManifestOf(data)) == data[..36]
  {
    hide Numbers, ValidText, AllZero, ReadU32, AnyRecovery, CompleteRecovery;
    NumbersOf(data);
    var m := ManifestOf(data);
    assert data[..8] == PACKAGE_MAGIC;
    Halves(data, 8, FORMAT_VERSION);
    Halves(data, 10, HEADER_SIZE);
    Halves(data, 14, 0);
    assert BytesU16(0) == [0, 0];
    assert data[12..16] == [data[12], data[13]] + data[14..16];
    assert data[12..16] == [m.role, ES256_P1363, 0, 0];
    assert data[..8] + data[8..10] + data[10..12] + data[12..16] + data[16..36] == data[..36];
  }

  lemma Halves(data: seq<Byte>, offset: nat, n: U16)
    requires offset + 2 <= |data| && ReadU16(data[offset..]) == n
    ensures data[offset..offset + 2] == BytesU16(n)
  {
    assert data[offset..][0] == data[offset] && data[offset..][1] == data[offset + 1];
  }

  // Every header that is read was made from a good manifest: the two forms have the same headers.
  lemma ParsedIsBuilt(data: seq<Byte>)
    requires ParseHeader(data).Parsed?
    ensures GoodManifest(ManifestOf(data)) && data == SignedPart(ManifestOf(data)) + data[SIGNED_SIZE..]
  {
    var m := ManifestOf(data);
    FrontOf(data);
    ZerosOf(data);
    MiddleOf(data);
    hide ParseHeader, ManifestOf, Front, Middle, Recovery, GoodManifest;
    assert data[..36] + data[36..132] + data[132..230] + data[230..256] == data[..256];
    assert data[..256] + data[256..] == data;
    BuiltParses(m, data[SIGNED_SIZE..]);
  }

  lemma MiddleOf(data: seq<Byte>)
    requires |data| == HEADER_SIZE
    ensures Middle(ManifestOf(data)) == data[36..132] && Recovery(ManifestOf(data)) == data[132..230]
  {
    hide ReadU32;
    assert data[36..52] + data[52..84] + data[84..108] + data[108..132] == data[36..132];
    assert data[132..148] + data[148..164] + data[164..229] + [data[229]] == data[132..230];
  }

  lemma ZerosOf(data: seq<Byte>)
    requires ParseHeader(data).Parsed?
    ensures data[230..256] == Zeros(26)
  {
    hide ValidText, ReadU32, ReadU16;
    assert AllZero(data[230..256]);
  }
}
