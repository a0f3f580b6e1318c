/** Reading the 320-byte header of an update package. */
module PackageHeader {
  import opened Wrappers
  import opened Bytes
  import opened FirmwareTrust

  const PACKAGE_MAGIC: seq<Byte> := [0x4E, 0x41, 0x4D, 0x4F, 0x4F, 0x54, 0x41, 0x31]
  const SIGNED_SIZE := 256
  const SIGNATURE_SIZE := 64
  const HEADER_SIZE := 320
  const FORMAT_VERSION := 1
  const ES256_P1363 := 1
  const PRODUCT_ID := 0x3153504E
  const HARDWARE_ID := 0x31335358
  const MAX_IMAGE_SIZE := 0x300000

  datatype ParseResult =
    | Parsed(package: Package)
    | INVALID_ARGUMENT | INVALID_MAGIC | UNSUPPORTED_FORMAT | UNSUPPORTED_ALGORITHM | INVALID_ROLE
    | INVALID_PRODUCT | INVALID_HARDWARE | INVALID_IMAGE_SIZE | INVALID_TEXT | INVALID_RECOVERY_FIELDS
    | INVALID_RESERVED

  // Printable characters, at least one, and then only zeros, at least one.
  predicate ValidText(s: seq<Byte>) {
    exists n | 0 < n < |s| :: (forall i | 0 <= i < n :: 0x20 <= s[i] <= 0x7E) && AllZero(s[n..])
  }

  // `n` is where the text would have to end.
  lemma NotText(s: seq<Byte>, n: nat, i: nat)
    requires n <= i < |s| && s[i] != 0 && (n < i ==> s[n] == 0) && (n == i ==> s[i] < 0x20 || s[i] > 0x7E)
    ensures !ValidText(s)
  {
    forall m | 0 < m < |s| && AllZero(s[m..]) ensures m > i {
      if m <= i {
        ZeroAt(s, m, i);
      }
    }
  }

  lemma ZeroAt(s: seq<Byte>, m: nat, i: nat)
    requires m <= i < |s| && AllZero(s[m..])
    ensures s[i] == 0
  {
    assert s[m..][i - m] == s[i];
  }

  lemma TextEnds(s: seq<Byte>, n: nat)
    requires n <= |s| && (forall j | 0 <= j < n :: 0x20 <= s[j] <= 0x7E) && (forall j | n <= j < |s| :: s[j] == 0)
    ensures ValidText(s) <==> 0 < n < |s|
  {
    assert AllZero(s[n..]);
    assert n == 0 && |s| > 0 ==> s[0] == 0;
    forall m | 0 < m < |s| && AllZero(s[m..]) ensures m >= n {
      ZeroAt(s, m, m);
    }
  }

  method CheckText(s: seq<Byte>) returns (ok: bool)
    ensures ok == ValidText(s)
  {
    var terminated, nonempty := false, false;
    ghost var n := 0;
    for i := 0 to |s|
      invariant 0 <= n <= i && (terminated <==> n < i) && (nonempty <==> n > 0)
      invariant forall j | 0 <= j < n :: 0x20 <= s[j] <= 0x7E
      invariant forall j | n <= j < i :: s[j] == 0
    {
      if s[i] == 0 {
        terminated := true;
      } else {
        if terminated || s[i] < 0x20 || s[i] > 0x7E {
          NotText(s, n, i);
          return false;
        }
        nonempty := true;
        n := n + 1;
      }
    }
    ok := terminated && nonempty;
    TextEnds(s, n);
  }

  function PackageOf(data: seq<Byte>): Package
    requires |data| == HEADER_SIZE
  {
    Package(data[12], ReadU32(data[24..]), ReadU32(data[28..]), ReadU32(data[32..]), data[36..52],
            data[132..148], data[229], data[148..164], data[164..229], data[256..], data[..256])
  }

  predicate AnyRecovery(p: Package) {
    !AllZero(p.revokedKeyId) || !AllZero(p.replacementKeyId) || !AllZero(p.replacementPublicKey) ||
    p.replacementKeyRole != 0
  }

  predicate CompleteRecovery(p: Package) {
    && !AllZero(p.revokedKeyId) && !AllZero(p.replacementKeyId) && ValidPublicKey(p.replacementPublicKey)
    && (p.replacementKeyRole == RELEASE || p.replacementKeyRole == DEVELOPER)
  }

  function ParseHeader(data: seq<Byte>): ParseResult {
    if |data| != HEADER_SIZE then INVALID_ARGUMENT
    else if data[..8] != PACKAGE_MAGIC then INVALID_MAGIC
    else if ReadU16(data[8..]) != FORMAT_VERSION || ReadU16(data[10..]) != HEADER_SIZE then UNSUPPORTED_FORMAT
    else
      var p := PackageOf(data);
      if data[13] != ES256_P1363 then UNSUPPORTED_ALGORITHM
      else if p.signerRole != RELEASE && p.signerRole != DEVELOPER && p.signerRole != ROOT_RECOVERY then INVALID_ROLE
      else if ReadU16(data[14..]) != 0 || !AllZero(data[230..SIGNED_SIZE]) then INVALID_RESERVED
      else if ReadU32(data[16..]) != PRODUCT_ID then INVALID_PRODUCT
      else if ReadU32(data[20..]) != HARDWARE_ID then INVALID_HARDWARE
      else if p.imageSize == 0 || p.imageSize > MAX_IMAGE_SIZE then INVALID_IMAGE_SIZE
      else if p.trustRevision == 0 || p.securityEpoch == 0 || AllZero(p.signerKeyId) || AllZero(data[52..84]) ||
              !ValidText(data[84..108]) || !ValidText(data[108..132]) then INVALID_TEXT
      else if (p.signerRole == ROOT_RECOVERY && !CompleteRecovery(p)) ||
              (p.signerRole != ROOT_RECOVERY && AnyRecovery(p)) ||
              (p.signerRole == ROOT_RECOVERY && p.revokedKeyId == p.replacementKeyId) then INVALID_RECOVERY_FIELDS
      else Parsed(p)
  }

  // The header is its signed bytes and its signature, and names an image of admissible size.
  lemma ParsedParts(data: seq<Byte>)
    requires ParseHeader(data).Parsed?
    ensures var p := ParseHeader(data).package;
            && |data| == HEADER_SIZE && |p.signedBytes| == SIGNED_SIZE && |p.signature| == SIGNATURE_SIZE
            && p.signedBytes + p.signature == data && 0 < p.imageSize <= MAX_IMAGE_SIZE
            && (p.signerRole == ROOT_RECOVERY <==> AnyRecovery(p))
            && (p.signerRole == ROOT_RECOVERY ==> p.revokedKeyId != p.replacementKeyId)
  {
    assert data[..256] + data[256..] == data;
  }

  lemma ReadU32Prefix(data: seq<Byte>, other: seq<Byte>, offset: nat)
    requires offset + 4 <= SIGNED_SIZE <= |data| && SIGNED_SIZE <= |other| && data[..SIGNED_SIZE] == other[..SIGNED_SIZE]
    ensures ReadU32(data[offset..]) == ReadU32(other[offset..])
  {
    forall i | 0 <= i < 4 ensures data[offset..][i] == other[offset..][i] {
      assert data[..SIGNED_SIZE][offset + i] == other[..SIGNED_SIZE][offset + i];
    }
  }

  lemma SlicePrefix(data: seq<Byte>, other: seq<Byte>, from: nat, to: nat)
    requires from <= to <= SIGNED_SIZE <= |data| && SIGNED_SIZE <= |other| && data[..SIGNED_SIZE] == other[..SIGNED_SIZE]
    ensures data[from..to] == other[from..to]
  {
    forall i | 0 <= i < to - from ensures data[from..to][i] == other[from..to][i] {
      assert data[..SIGNED_SIZE][from + i] == other[..SIGNED_SIZE][from + i];
    }
  }

  // The signature covers everything the policy reads: packages with the same signed bytes differ
  // at most in the signature.
  lemma SignedBytesDecide(data: seq<Byte>, other: seq<Byte>)
    requires ParseHeader(data).Parsed? && ParseHeader(other).Parsed?
    requires ParseHeader(data).package.signedBytes == ParseHeader(other).package.signedBytes
    ensures ParseHeader(data).package.(signature := []) == ParseHeader(other).package.(signature := [])
  {
    ReadU32Prefix(data, other, 24);
    ReadU32Prefix(data, other, 28);
    ReadU32Prefix(data, other, 32);
    SlicePrefix(data, other, 36, 52);
    SlicePrefix(data, other, 132, 148);
    SlicePrefix(data, other, 148, 164);
    SlicePrefix(data, other, 164, 229);
    assert data[..256][12] == other[..256][12] && data[..256][229] == other[..256][229];
  }
}
