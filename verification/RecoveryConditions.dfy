/** Which recoveries a keyring has room for, told from the keyring alone. */
module RecoveryConditions {
  import opened Wrappers
  import opened Bytes
  import opened FirmwareTrust
  import opened PackageHeader

  // The key a recovery revokes and the one it puts in its place.
  datatype Exchange = Exchange(revokedId: KeyId, role: Role, keyId: KeyId, key: PublicKey)

  function ExchangeOf(p: Package): Exchange {
    Exchange(p.revokedKeyId, p.replacementKeyRole, p.replacementKeyId, p.replacementPublicKey)
  }

  // What a header may ask for.
  predicate Askable(x: Exchange) {
    && !AllZero(x.revokedId) && !AllZero(x.keyId) && x.keyId != x.revokedId
    && (x.role == RELEASE || x.role == DEVELOPER) && ValidPublicKey(x.key)
  }

  predicate OpenFor(slot: KeyId, id: KeyId) {
    slot == id || AllZero(slot)
  }

  // Room to revoke: the first slot that is free or has the id does not come before another with the id.
  predicate Revocable(ids: seq<KeyId>, id: KeyId) {
    exists k | 0 <= k < |ids| ::
      && OpenFor(ids[k], id) && (forall j | 0 <= j < k :: !OpenFor(ids[j], id))
      && (AllZero(ids[k]) ==> id !in ids)
  }

  predicate HasId(keys: seq<TrustKey>, id: KeyId) {
    exists i | 0 <= i < |keys| :: keys[i].occupied && keys[i].keyId == id
  }

  // A slot that the revocation leaves free or that the new key may overwrite.
  predicate Installable(keys: seq<TrustKey>, x: Exchange) {
    exists i | 0 <= i < |keys| :: keys[i].occupied ==> keys[i].keyId == x.revokedId || keys[i].keyId == x.keyId
  }

  predicate OtherRelease(s: TrustState, id: KeyId) {
    exists i | 0 <= i < |s.releaseKeys| :: s.releaseKeys[i].occupied && s.releaseKeys[i].keyId != id
  }

  function OtherRole(role: Role): Role {
    if role == RELEASE then DEVELOPER else RELEASE
  }

  predicate HasRoom(s: TrustState, x: Exchange) {
    && Revocable(s.revokedKeyIds, x.revokedId) && x.keyId !in s.revokedKeyIds
    && !HasId(RoleKeys(s, OtherRole(x.role)), x.keyId)
    && Installable(RoleKeys(s, x.role), x)
    && (x.role == RELEASE || OtherRelease(s, x.revokedId))
  }

  // ---------------------------------------------------------------- the revoked ids

  function FirstOpen(ids: seq<KeyId>, id: KeyId): (k: nat)
    ensures k <= |ids| && (k < |ids| ==> OpenFor(ids[k], id))
    ensures forall j | 0 <= j < k :: !OpenFor(ids[j], id)
  {
    if ids == [] || OpenFor(ids[0], id) then 0 else 1 + FirstOpen(ids[1..], id)
  }

  lemma RevocableExactly(ids: seq<KeyId>, id: KeyId)
    requires !AllZero(id) && DistinctRevoked(ids)
    ensures Revocable(ids, id) <==> AppendRevoked(ids, id).Some? && DistinctRevoked(AppendRevoked(ids, id).value)
  {
    hide AllZero;
    var k := FirstOpen(ids, id);
    AppendRevokedAt(ids, id, k);
    if k < |ids| && AllZero(ids[k]) {
      if j :| 0 <= j < |ids| && ids[j] == id {
        assert j > k && ids[k := id][j] == ids[k := id][k] == id;
      }
    }
  }

  // ---------------------------------------------------------------- the keys

  // The keys of a role once one is revoked and the other has its slot.
  function Exchanged(keys: seq<TrustKey>, x: Exchange): (r: Option<seq<TrustKey>>)
    ensures r.Some? ==> |r.value| == |keys|
  {
    var left := WithoutKey(keys, x.revokedId);
    var same, free := FirstWithId(left, x.keyId), FirstFree(left);
    if same < |keys| then Some(left[same := TrustKey(true, x.role, x.keyId, x.key)])
    else if free < |keys| then Some(left[free := TrustKey(true, x.role, x.keyId, x.key)])
    else None
  }

  predicate Kept(now: TrustKey, was: TrustKey, x: Exchange) {
    || now == TrustKey(true, x.role, x.keyId, x.key)
    || (now == was && (was.occupied ==> was.keyId != x.keyId && was.keyId != x.revokedId))
    || (now == NO_KEY && was.occupied && was.keyId == x.revokedId)
  }

  lemma InstallableExactly(keys: seq<TrustKey>, x: Exchange)
    requires x.keyId != x.revokedId
    ensures Exchanged(keys, x).Some? <==> Installable(keys, x)
  {
    var left := WithoutKey(keys, x.revokedId);
    var same, free := FirstWithId(left, x.keyId), FirstFree(left);
    if i :| 0 <= i < |keys| && (keys[i].occupied ==> keys[i].keyId == x.revokedId || keys[i].keyId == x.keyId) {
      assert left[i].occupied ==> left[i].keyId == x.keyId;
    }
    if same < |keys| {
      assert keys[same].keyId == x.keyId;
    } else if free < |keys| {
      assert keys[free].occupied ==> keys[free].keyId == x.revokedId;
    }
  }

  // The slot that the new key gets, and that every other key is as it was unless it was revoked.
  lemma ExchangedKeeps(keys: seq<TrustKey>, x: Exchange)
    requires DistinctKeys(keys) && Exchanged(keys, x).Some?
    ensures var e := Exchanged(keys, x).value;
            exists k | 0 <= k < |keys| ::
              && e[k] == TrustKey(true, x.role, x.keyId, x.key)
              && forall i | 0 <= i < |keys| && i != k :: Kept(e[i], keys[i], x) && (e[i].occupied ==> e[i].keyId != x.keyId)
  {
    var left := WithoutKey(keys, x.revokedId);
    var same, free := FirstWithId(left, x.keyId), FirstFree(left);
    var e := Exchanged(keys, x).value;
    var k := if same < |keys| then same else free;
    assert e[k] == TrustKey(true, x.role, x.keyId, x.key);
    forall i | 0 <= i < |keys| && i != k ensures Kept(e[i], keys[i], x) && (e[i].occupied ==> e[i].keyId != x.keyId) {
      assert e[i] == left[i];
      if same < |keys| && left[i].occupied {
        assert keys[same].occupied && keys[i].occupied;
        assert keys[i].keyId != keys[same].keyId;
      }
    }
  }

  // ---------------------------------------------------------------- the whole keyring

  // The recovered keyring, when it can be made.
  function After(s: TrustState, x: Exchange, revision: U32, epoch: U32): Option<TrustState>
  {
    var revoked := AppendRevoked(s.revokedKeyIds, x.revokedId);
    var mine := Exchanged(RoleKeys(s, x.role), x);
    var others := WithoutKey(RoleKeys(s, OtherRole(x.role)), x.revokedId);
    if revoked.None? || RevokedIn(revoked.value, x.keyId) || mine.None? then None
    else
      Some(TrustState(revision, epoch, if x.role == RELEASE then mine.value else others,
                      if x.role == RELEASE then others else mine.value, revoked.value))
  }

  lemma RoleKept(keys: seq<TrustKey>, x: Exchange)
    requires forall i | 0 <= i < |keys| :: keys[i].occupied ==> keys[i].role == x.role
    ensures var left := WithoutKey(keys, x.revokedId);
            var same := FirstWithId(left, x.keyId);
            same < |keys| ==> left[same].(publicKey := x.key) == TrustKey(true, x.role, x.keyId, x.key)
  {
  }

  // A recovery of a valid keyring computes that keyring.
  lemma RecoveredIsAfter(p: Package, s: TrustState)
    requires ValidState(s) && Askable(ExchangeOf(p))
    ensures Recovered(p, s) == After(s, ExchangeOf(p), p.trustRevision, p.securityEpoch)
  {
    var x := ExchangeOf(p);
    RolesAre(s, x.role);
    RoleKept(RoleKeys(s, x.role), x);
    hide ValidState, AppendRevoked, ValidPublicKey, RevokedIn;
  }

  lemma RolesAre(s: TrustState, role: Role)
    requires ValidState(s) && (role == RELEASE || role == DEVELOPER)
    ensures forall i | 0 <= i < KEY_SLOTS :: RoleKeys(s, role)[i].occupied ==> RoleKeys(s, role)[i].role == role
    ensures forall i | 0 <= i < KEY_SLOTS :: GoodKey(RoleKeys(s, role)[i], role, s.revokedKeyIds)
    ensures DistinctKeys(RoleKeys(s, role))
  {
    var keys := s.releaseKeys + s.developerKeys;
    forall i, j | 0 <= i < j < KEY_SLOTS && RoleKeys(s, role)[i].occupied && RoleKeys(s, role)[j].occupied
      ensures RoleKeys(s, role)[i].keyId != RoleKeys(s, role)[j].keyId {
      var base := if role == RELEASE then 0 else KEY_SLOTS;
      assert keys[base + i] == RoleKeys(s, role)[i] && keys[base + j] == RoleKeys(s, role)[j];
    }
  }

  predicate GoodKeys(keys: seq<TrustKey>, role: Role, revoked: seq<KeyId>) {
    forall i | 0 <= i < |keys| :: GoodKey(keys[i], role, revoked)
  }

  predicate Apart(a: seq<TrustKey>, b: seq<TrustKey>) {
    forall i, j | 0 <= i < |a| && 0 <= j < |b| :: a[i].occupied && b[j].occupied ==> a[i].keyId != b[j].keyId
  }

  predicate AnyKey(keys: seq<TrustKey>) {
    exists i | 0 <= i < |keys| :: keys[i].occupied
  }

  lemma DistinctHalves(a: seq<TrustKey>, b: seq<TrustKey>)
    ensures DistinctKeys(a + b) <==> DistinctKeys(a) && DistinctKeys(b) && Apart(a, b)
  {
    var all := a + b;
    assert forall i | 0 <= i < |a| :: all[i] == a[i];
    assert forall j | 0 <= j < |b| :: all[|a| + j] == b[j];
    if DistinctKeys(a + b) {
      forall i, j | 0 <= i < |a| && 0 <= j < |b| && a[i].occupied && b[j].occupied ensures a[i].keyId != b[j].keyId {
        assert all[i].keyId != all[|a| + j].keyId;
      }
      forall i, j | 0 <= i < j < |b| && b[i].occupied && b[j].occupied ensures b[i].keyId != b[j].keyId {
        assert all[|a| + i].keyId != all[|a| + j].keyId;
      }
      forall i, j | 0 <= i < j < |a| && a[i].occupied && a[j].occupied ensures a[i].keyId != a[j].keyId {
        assert all[i].keyId != all[j].keyId;
      }
    }
  }

  // A valid keyring, told for the two roles in either order.
  predicate ValidFor(s: TrustState, role: Role) {
    var mine, others := RoleKeys(s, role), RoleKeys(s, OtherRole(role));
    && s.trustRevision != 0 && s.minimumSecurityEpoch != 0
    && GoodKeys(mine, role, s.revokedKeyIds) && GoodKeys(others, OtherRole(role), s.revokedKeyIds)
    && DistinctKeys(mine) && DistinctKeys(others) && Apart(mine, others)
    && DistinctRevoked(s.revokedKeyIds) && AnyKey(s.releaseKeys)
  }

  lemma ValidForExactly(s: TrustState, role: Role)
    requires role == RELEASE || role == DEVELOPER
    ensures ValidState(s) <==> ValidFor(s, role)
  {
    DistinctHalves(s.releaseKeys, s.developerKeys);
    hide GoodKey, DistinctKeys, DistinctRevoked;
  }

  lemma GoodLater(key: TrustKey, role: Role, was: seq<KeyId>, now: seq<KeyId>, id: KeyId)
    requires GoodKey(key, role, was) && AppendRevoked(was, id) == Some(now) && (key.occupied ==> key.keyId != id)
    ensures GoodKey(key, role, now)
  {
    AppendRevokedKeeps(was, id, key.keyId);
  }

  lemma OthersStayGood(keys: seq<TrustKey>, role: Role, was: seq<KeyId>, now: seq<KeyId>, id: KeyId)
    requires GoodKeys(keys, role, was) && DistinctKeys(keys) && AppendRevoked(was, id) == Some(now)
    ensures GoodKeys(WithoutKey(keys, id), role, now) && DistinctKeys(WithoutKey(keys, id))
  {
    hide GoodKey;
    forall i | 0 <= i < |keys| ensures GoodKey(WithoutKey(keys, id)[i], role, now) {
      NoKeyIsGood(role, now);
      if !(keys[i].occupied && keys[i].keyId == id) {
        GoodLater(keys[i], role, was, now, id);
      }
    }
  }

  lemma NoKeyIsGood(role: Role, revoked: seq<KeyId>)
    ensures GoodKey(NO_KEY, role, revoked)
  {
  }

  lemma MineStayGood(keys: seq<TrustKey>, x: Exchange, was: seq<KeyId>, now: seq<KeyId>)
    requires GoodKeys(keys, x.role, was) && DistinctKeys(keys) && AppendRevoked(was, x.revokedId) == Some(now)
    requires Exchanged(keys, x).Some? && Askable(x) && !RevokedIn(now, x.keyId)
    ensures GoodKeys(Exchanged(keys, x).value, x.role, now) && DistinctKeys(Exchanged(keys, x).value)
    ensures AnyKey(Exchanged(keys, x).value)
  {
    ExchangedKeeps(keys, x);
    var e := Exchanged(keys, x).value;
    var k :| 0 <= k < |keys| && e[k] == TrustKey(true, x.role, x.keyId, x.key) &&
             forall i | 0 <= i < |keys| && i != k :: Kept(e[i], keys[i], x) && (e[i].occupied ==> e[i].keyId != x.keyId);
    hide Exchanged, AppendRevoked;
    forall i | 0 <= i < |keys| ensures GoodKey(e[i], x.role, now) {
      if i != k && e[i] == keys[i] {
        GoodLater(keys[i], x.role, was, now, x.revokedId);
      }
    }
  }

  // Against the keys of the other role only the new key matters.
  lemma ApartExactly(keys: seq<TrustKey>, others: seq<TrustKey>, x: Exchange)
    requires DistinctKeys(keys) && Apart(keys, others) && Exchanged(keys, x).Some? && x.keyId != x.revokedId
    ensures Apart(Exchanged(keys, x).value, WithoutKey(others, x.revokedId)) <==> !HasId(others, x.keyId)
  {
    ExchangedKeeps(keys, x);
    var e, left := Exchanged(keys, x).value, WithoutKey(others, x.revokedId);
    var k :| 0 <= k < |keys| && e[k] == TrustKey(true, x.role, x.keyId, x.key) &&
             forall i | 0 <= i < |keys| && i != k :: Kept(e[i], keys[i], x) && (e[i].occupied ==> e[i].keyId != x.keyId);
    hide Exchanged;
    if j :| 0 <= j < |others| && others[j].occupied && others[j].keyId == x.keyId {
      assert left[j] == others[j];
      assert e[k].occupied && e[k].keyId == left[j].keyId;
    }
  }

  // ---------------------------------------------------------------- the exact condition

  lemma RevokedLater(was: seq<KeyId>, x: Exchange)
    requires Askable(x) && AppendRevoked(was, x.revokedId).Some?
    ensures RevokedIn(AppendRevoked(was, x.revokedId).value, x.keyId) <==> x.keyId in was
  {
    AppendRevokedKeeps(was, x.revokedId, x.keyId);
  }

  lemma ReleaseLeft(s: TrustState, x: Exchange)
    ensures AnyKey(WithoutKey(s.releaseKeys, x.revokedId)) <==> OtherRelease(s, x.revokedId)
  {
    var left := WithoutKey(s.releaseKeys, x.revokedId);
    if i :| 0 <= i < |s.releaseKeys| && s.releaseKeys[i].occupied && s.releaseKeys[i].keyId != x.revokedId {
      assert left[i].occupied;
    }
    if i :| 0 <= i < |left| && left[i].occupied {
      assert s.releaseKeys[i].occupied && s.releaseKeys[i].keyId != x.revokedId;
    }
  }

  // Main result: a recovery leaves a valid keyring exactly when the keyring has room for it.
  lemma RecoveryFits(p: Package, s: TrustState)
    requires ValidState(s) && Askable(ExchangeOf(p)) && p.trustRevision != 0 && p.securityEpoch != 0
    ensures Recovered(p, s).Some? && ValidState(Recovered(p, s).value) <==> HasRoom(s, ExchangeOf(p))
  {
    var x := ExchangeOf(p);
    RecoveredIsAfter(p, s);
    AfterExactly(s, x, p.trustRevision, p.securityEpoch);
    hide *;
  }

  lemma AfterExactly(s: TrustState, x: Exchange, revision: U32, epoch: U32)
    requires ValidState(s) && Askable(x) && revision != 0 && epoch != 0
    ensures var after := After(s, x, revision, epoch);
            after.Some? && ValidState(after.value) <==> HasRoom(s, x)
  {
    var mine, others, ids := RoleKeys(s, x.role), RoleKeys(s, OtherRole(x.role)), s.revokedKeyIds;
    ValidForExactly(s, x.role);
    RevocableExactly(ids, x.revokedId);
    InstallableExactly(mine, x);
    ReleaseLeft(s, x);
    hide ValidState, Askable, GoodKeys, DistinctKeys, Apart, DistinctRevoked, AppendRevoked, Exchanged, Revocable, Installable,
         HasId, OtherRelease, RevokedIn, WithoutKey, AnyKey;
    var revoked := AppendRevoked(ids, x.revokedId);
    if revoked.Some? && Exchanged(mine, x).Some? {
      RevokedLater(ids, x);
      OthersStayGood(others, OtherRole(x.role), ids, revoked.value, x.revokedId);
      IdsDiffer(x);
      ApartExactly(mine, others, x);
      if x.keyId !in ids {
        MineStayGood(mine, x, ids, revoked.value);
        ValidForExactly(After(s, x, revision, epoch).value, x.role);
      }
    }
  }

  lemma IdsDiffer(x: Exchange)
    requires Askable(x)
    ensures x.keyId != x.revokedId
  {
  }

  // Main result: when a recovery is accepted, told from the package and the keyring.
  lemma RecoveryAcceptedExactly(p: Package, s: TrustState, rootId: KeyId, rootKey: PublicKey, v: Verifier)
    requires ValidState(s) && ValidPublicKey(rootKey)
    requires p.signerRole == ROOT_RECOVERY && Askable(ExchangeOf(p)) && p.trustRevision != 0 && p.securityEpoch != 0
    ensures Evaluate(p, s, rootId, rootKey, v).Accepted? <==>
            && !RevokedIn(s.revokedKeyIds, p.signerKeyId) && !AllZero(rootId) && p.signerKeyId == rootId
            && p.trustRevision > s.trustRevision && v.verify(rootKey, p.signedBytes, p.signature)
            && v.validKey(p.replacementPublicKey, p.replacementKeyId) && HasRoom(s, ExchangeOf(p))
  {
    RecoveryFits(p, s);
    hide ValidState, Recovered, HasRoom, ValidPublicKey, Askable, RevokedIn, AllZero;
  }
}
