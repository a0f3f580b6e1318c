/** The signing keyring of the device and the policy that decides which update packages it
    accepts and what keyring follows. */
module FirmwareTrust {
  import opened Wrappers
  import opened Bytes

  type KeyId = k: seq<Byte> | |k| == 16 witness Zeros(16)
  type PublicKey = k: seq<Byte> | |k| == 65 witness Zeros(65)

  type Role = Byte
  const RELEASE: Role := 1
  const DEVELOPER: Role := 2
  const ROOT_RECOVERY: Role := 3

  datatype TrustKey = TrustKey(occupied: bool, role: Role, keyId: KeyId, publicKey: PublicKey)

  const NO_ID: KeyId := Zeros(16)
  const NO_KEY := TrustKey(false, RELEASE, Zeros(16), Zeros(65))

  const KEY_SLOTS := 2
  const REVOKED_SLOTS := 4

  type KeySlots = s: seq<TrustKey> | |s| == KEY_SLOTS witness [NO_KEY, NO_KEY]
  type RevokedSlots = s: seq<KeyId> | |s| == REVOKED_SLOTS witness [NO_ID, NO_ID, NO_ID, NO_ID]

  datatype TrustState = TrustState(
    trustRevision: U32, minimumSecurityEpoch: U32,
    releaseKeys: KeySlots, developerKeys: KeySlots, revokedKeyIds: RevokedSlots)

  // The parts of a parsed package header that the policy reads.
  datatype Package = Package(
    signerRole: Role, imageSize: U32, trustRevision: U32, securityEpoch: U32, signerKeyId: KeyId,
    revokedKeyId: KeyId, replacementKeyRole: Role, replacementKeyId: KeyId, replacementPublicKey: PublicKey,
    signature: seq<Byte>, signedBytes: seq<Byte>)

  // The signature primitives, over which every result is quantified.
  datatype Verifier = Verifier(
    verify: (PublicKey, seq<Byte>, seq<Byte>) -> bool,
    validKey: (PublicKey, KeyId) -> bool)

  datatype TrustResult =
    | TRUST_UNAVAILABLE | UNKNOWN_KEY | REVOKED_KEY | ROLE_MISMATCH | TRUST_REVISION_MISMATCH
    | TRUST_ROLLBACK | SECURITY_ROLLBACK | SECURITY_EPOCH_MISMATCH | INVALID_SIGNATURE | INVALID_RECOVERY
    | KEY_CAPACITY_EXCEEDED

  // A refused decision carries no keyring.
  datatype Decision =
    | Refused(result: TrustResult)
    | Accepted(updateRequired: bool, next: TrustState)

  predicate ValidPublicKey(key: PublicKey) {
    key[0] == 4 && !AllZero(key[1..])
  }

  predicate RevokedIn(ids: seq<KeyId>, id: KeyId) {
    !AllZero(id) && id in ids
  }

  predicate HasKey(keys: seq<TrustKey>, role: Role, id: KeyId) {
    exists i | 0 <= i < |keys| :: keys[i].occupied && keys[i].role == role && keys[i].keyId == id
  }

  // The first key with the role and the id.
  function FindKey(keys: seq<TrustKey>, role: Role, id: KeyId): (r: Option<TrustKey>)
    ensures r.Some? == HasKey(keys, role, id)
    ensures r.Some? ==> r.value in keys && r.value.occupied && r.value.role == role && r.value.keyId == id
  {
    if keys == [] then None
    else if keys[0].occupied && keys[0].role == role && keys[0].keyId == id then Some(keys[0])
    else
      var r := FindKey(keys[1..], role, id);
      assert HasKey(keys[1..], role, id) ==> HasKey(keys, role, id);
      r
  }

  predicate GoodKey(key: TrustKey, role: Role, revoked: seq<KeyId>) {
    key.occupied ==>
      key.role == role && !AllZero(key.keyId) && ValidPublicKey(key.publicKey) && !RevokedIn(revoked, key.keyId)
  }

  predicate DistinctKeys(keys: seq<TrustKey>) {
    forall i, j | 0 <= i < j < |keys| :: keys[i].occupied && keys[j].occupied ==> keys[i].keyId != keys[j].keyId
  }

  predicate DistinctRevoked(ids: seq<KeyId>) {
    forall i, j | 0 <= i < j < |ids| :: !AllZero(ids[i]) ==> ids[i] != ids[j]
  }

  predicate ValidState(s: TrustState) {
    && s.trustRevision != 0 && s.minimumSecurityEpoch != 0
    && (forall i | 0 <= i < |s.releaseKeys| :: GoodKey(s.releaseKeys[i], RELEASE, s.revokedKeyIds))
    && (forall i | 0 <= i < |s.developerKeys| :: GoodKey(s.developerKeys[i], DEVELOPER, s.revokedKeyIds))
    && DistinctKeys(s.releaseKeys + s.developerKeys)
    && DistinctRevoked(s.revokedKeyIds)
    && exists i | 0 <= i < |s.releaseKeys| :: s.releaseKeys[i].occupied
  }

  function WithoutKey(keys: seq<TrustKey>, id: KeyId): (r: seq<TrustKey>)
    ensures |r| == |keys|
  {
    seq(|keys|, i requires 0 <= i < |keys| => if keys[i].occupied && keys[i].keyId == id then NO_KEY else keys[i])
  }

  // The first slot that already has the id or is free takes it.
  function AppendRevoked(ids: seq<KeyId>, id: KeyId): (r: Option<seq<KeyId>>)
    ensures r.Some? ==> |r.value| == |ids|
  {
    if AllZero(id) then Some(ids)
    else if ids == [] then None
    else if ids[0] == id then Some(ids)
    else if AllZero(ids[0]) then Some([id] + ids[1..])
    else
      match AppendRevoked(ids[1..], id)
      case None => None
      case Some(rest) => Some([ids[0]] + rest)
  }

  // Where the first slot that decides is.
  lemma {:induction false} AppendRevokedAt(ids: seq<KeyId>, id: KeyId, k: nat)
    requires !AllZero(id) && k <= |ids| && forall i | 0 <= i < k :: ids[i] != id && !AllZero(ids[i])
    ensures k == |ids| ==> AppendRevoked(ids, id) == None
    ensures k < |ids| && ids[k] == id ==> AppendRevoked(ids, id) == Some(ids)
    ensures k < |ids| && AllZero(ids[k]) ==> AppendRevoked(ids, id) == Some(ids[k := id])
  {
    if k > 0 {
      AppendRevokedAt(ids[1..], id, k - 1);
      assert [ids[0]] + ids[1..] == ids;
      assert k < |ids| ==> [ids[0]] + ids[1..][k - 1 := id] == ids[k := id];
    } else if ids != [] {
      assert [id] + ids[1..] == ids[0 := id];
    }
  }

  function FirstWithId(keys: seq<TrustKey>, id: KeyId): (r: nat)
    ensures r <= |keys|
    ensures r < |keys| ==> keys[r].occupied && keys[r].keyId == id
    ensures forall i | 0 <= i < r :: !(keys[i].occupied && keys[i].keyId == id)
  {
    if keys == [] || (keys[0].occupied && keys[0].keyId == id) then 0 else 1 + FirstWithId(keys[1..], id)
  }

  function FirstFree(keys: seq<TrustKey>): (r: nat)
    ensures r <= |keys|
    ensures r < |keys| ==> !keys[r].occupied
    ensures forall i | 0 <= i < r :: keys[i].occupied
  {
    if keys == [] || !keys[0].occupied then 0 else 1 + FirstFree(keys[1..])
  }

  function InstallKey(keys: seq<TrustKey>, revoked: seq<KeyId>, role: Role, id: KeyId, key: PublicKey)
    : (r: Option<seq<TrustKey>>)
    ensures r.Some? ==> |r.value| == |keys|
  {
    if AllZero(id) || !ValidPublicKey(key) || RevokedIn(revoked, id) then None
    else
      var same := FirstWithId(keys, id);
      var free := FirstFree(keys);
      if same < |keys| then Some(keys[same := keys[same].(publicKey := key)])
      else if free < |keys| then Some(keys[free := TrustKey(true, role, id, key)])
      else None
  }

  // The keyring after a recovery package: one key revoked, one installed.
  function Recovered(p: Package, current: TrustState): Option<TrustState> {
    match AppendRevoked(current.revokedKeyIds, p.revokedKeyId)
    case None => None
    case Some(revoked) =>
      var release := WithoutKey(current.releaseKeys, p.revokedKeyId);
      var developer := WithoutKey(current.developerKeys, p.revokedKeyId);
      var role := p.replacementKeyRole;
      match InstallKey(if role == RELEASE then release else developer, revoked, role, p.replacementKeyId,
                       p.replacementPublicKey)
      case None => None
      case Some(keys) =>
        Some(TrustState(p.trustRevision, p.securityEpoch, if role == RELEASE then keys else release,
                        if role == RELEASE then developer else keys, revoked))
  }

  function RoleKeys(s: TrustState, role: Role): KeySlots {
    if role == RELEASE then s.releaseKeys else s.developerKeys
  }

  function EvaluateRecovery(p: Package, current: TrustState, rootId: KeyId, rootKey: PublicKey, v: Verifier): Decision {
    if AllZero(rootId) || p.signerKeyId != rootId then Refused(UNKNOWN_KEY)
    else if p.trustRevision <= current.trustRevision then Refused(TRUST_ROLLBACK)
    else if !v.verify(rootKey, p.signedBytes, p.signature) then Refused(INVALID_SIGNATURE)
    else if !v.validKey(p.replacementPublicKey, p.replacementKeyId) then Refused(INVALID_RECOVERY)
    else
      match Recovered(p, current)
      case None => Refused(KEY_CAPACITY_EXCEEDED)
      case Some(next) => if ValidState(next) then Accepted(true, next) else Refused(INVALID_RECOVERY)
  }

  function EvaluateRegular(p: Package, current: TrustState, v: Verifier): Decision {
    if p.securityEpoch < current.minimumSecurityEpoch then Refused(SECURITY_ROLLBACK)
    else if p.trustRevision != current.trustRevision then Refused(TRUST_REVISION_MISMATCH)
    else
      match FindKey(RoleKeys(current, p.signerRole), p.signerRole, p.signerKeyId)
      case None =>
        var other := if p.signerRole == RELEASE then DEVELOPER else RELEASE;
        Refused(if HasKey(RoleKeys(current, other), other, p.signerKeyId) then ROLE_MISMATCH else UNKNOWN_KEY)
      case Some(key) =>
        if !v.verify(key.publicKey, p.signedBytes, p.signature) then Refused(INVALID_SIGNATURE)
        else if p.signerRole == DEVELOPER && p.securityEpoch != current.minimumSecurityEpoch then
          Refused(SECURITY_EPOCH_MISMATCH)
        else if p.signerRole == RELEASE && p.securityEpoch > current.minimumSecurityEpoch then
          Accepted(true, current.(minimumSecurityEpoch := p.securityEpoch))
        else Accepted(false, current)
  }

  function Evaluate(p: Package, current: TrustState, rootId: KeyId, rootKey: PublicKey, v: Verifier): Decision {
    if !ValidState(current) || !ValidPublicKey(rootKey) then Refused(TRUST_UNAVAILABLE)
    else if RevokedIn(current.revokedKeyIds, p.signerKeyId) then Refused(REVOKED_KEY)
    else if p.signerRole == ROOT_RECOVERY then EvaluateRecovery(p, current, rootId, rootKey, v)
    else EvaluateRegular(p, current, v)
  }

  // ---------------------------------------------------------------- what acceptance means

  // Trust revision first, then the security epoch.
  predicate Older(a: TrustState, b: TrustState) {
    a.trustRevision < b.trustRevision ||
    (a.trustRevision == b.trustRevision && a.minimumSecurityEpoch < b.minimumSecurityEpoch)
  }

  ghost predicate KeepsRevoked(a: TrustState, b: TrustState) {
    forall id: KeyId :: RevokedIn(a.revokedKeyIds, id) ==> RevokedIn(b.revokedKeyIds, id)
  }

  lemma {:induction false} AppendRevokedKeeps(ids: seq<KeyId>, id: KeyId, other: KeyId)
    requires AppendRevoked(ids, id).Some?
    ensures RevokedIn(AppendRevoked(ids, id).value, other) <==> RevokedIn(ids, other) || (other == id && !AllZero(id))
  {
    if ids != [] && !AllZero(id) && ids[0] != id && !AllZero(ids[0]) {
      AppendRevokedKeeps(ids[1..], id, other);
    }
  }

  // Every id that signs an accepted package is trusted at that moment: the root key, or an
  // occupied key of the package's own role whose signature verifies.
  predicate Signed(p: Package, current: TrustState, rootId: KeyId, rootKey: PublicKey, v: Verifier) {
    if p.signerRole == ROOT_RECOVERY then
      p.signerKeyId == rootId && v.verify(rootKey, p.signedBytes, p.signature)
    else
      exists i | 0 <= i < KEY_SLOTS ::
        var key := RoleKeys(current, p.signerRole)[i];
        key.occupied && key.role == p.signerRole && key.keyId == p.signerKeyId &&
        v.verify(key.publicKey, p.signedBytes, p.signature)
  }

  lemma AcceptedIsSigned(p: Package, current: TrustState, rootId: KeyId, rootKey: PublicKey, v: Verifier)
    requires Evaluate(p, current, rootId, rootKey, v).Accepted?
    ensures ValidState(current) && !RevokedIn(current.revokedKeyIds, p.signerKeyId)
    ensures Signed(p, current, rootId, rootKey, v)
    ensures p.signerRole == ROOT_RECOVERY || p.trustRevision == current.trustRevision
    ensures p.signerRole == ROOT_RECOVERY || p.securityEpoch >= current.minimumSecurityEpoch
  {
    if p.signerRole != ROOT_RECOVERY {
      var keys := RoleKeys(current, p.signerRole);
      var key := FindKey(keys, p.signerRole, p.signerKeyId).value;
      var i :| 0 <= i < |keys| && keys[i] == key;
    }
  }

  // The keyring that follows an accepted package is valid, strictly newer exactly when an update
  // is due, and forgets no revocation.
  lemma AcceptedAdvances(p: Package, current: TrustState, rootId: KeyId, rootKey: PublicKey, v: Verifier)
    requires Evaluate(p, current, rootId, rootKey, v).Accepted?
    ensures var d := Evaluate(p, current, rootId, rootKey, v);
            && ValidState(d.next) && KeepsRevoked(current, d.next)
            && (if d.updateRequired then Older(current, d.next) else d.next == current)
            && (p.signerRole == ROOT_RECOVERY && !AllZero(p.revokedKeyId) ==>
                RevokedIn(d.next.revokedKeyIds, p.revokedKeyId) &&
                !HasKey(d.next.releaseKeys, RELEASE, p.revokedKeyId) &&
                !HasKey(d.next.developerKeys, DEVELOPER, p.revokedKeyId))
  {
    if p.signerRole == ROOT_RECOVERY {
      forall id: KeyId ensures RevokedIn(current.revokedKeyIds, id) ==>
                                 RevokedIn(Recovered(p, current).value.revokedKeyIds, id) {
        AppendRevokedKeeps(current.revokedKeyIds, p.revokedKeyId, id);
      }
      AppendRevokedKeeps(current.revokedKeyIds, p.revokedKeyId, p.revokedKeyId);
    } else {
      var d := Evaluate(p, current, rootId, rootKey, v);
      assert d.next.revokedKeyIds == current.revokedKeyIds;
      assert forall i | 0 <= i < KEY_SLOTS :: d.next.releaseKeys[i] == current.releaseKeys[i];
    }
  }

  // A recovery installs its replacement key under the role it names.
  lemma RecoveryInstalls(p: Package, current: TrustState, rootId: KeyId, rootKey: PublicKey, v: Verifier)
    requires p.signerRole == ROOT_RECOVERY && p.replacementKeyRole in {RELEASE, DEVELOPER}
    requires Evaluate(p, current, rootId, rootKey, v).Accepted?
    ensures var next := Evaluate(p, current, rootId, rootKey, v).next;
            exists i | 0 <= i < KEY_SLOTS ::
              RoleKeys(next, p.replacementKeyRole)[i] ==
              TrustKey(true, p.replacementKeyRole, p.replacementKeyId, p.replacementPublicKey)
  {
    var role := p.replacementKeyRole;
    var next := Evaluate(p, current, rootId, rootKey, v).next;
    var revoked := AppendRevoked(current.revokedKeyIds, p.revokedKeyId).value;
    var keys := WithoutKey(RoleKeys(current, role), p.revokedKeyId);
    var same, free := FirstWithId(keys, p.replacementKeyId), FirstFree(keys);
    assert RoleKeys(next, role) == InstallKey(keys, revoked, role, p.replacementKeyId, p.replacementPublicKey).value;
    if same < |keys| {
      assert keys[same] == RoleKeys(current, role)[same];
      assert GoodKey(RoleKeys(current, role)[same], role, current.revokedKeyIds);
      assert RoleKeys(next, role)[same] == TrustKey(true, role, p.replacementKeyId, p.replacementPublicKey);
    } else {
      assert RoleKeys(next, role)[free] == TrustKey(true, role, p.replacementKeyId, p.replacementPublicKey);
    }
  }
}
