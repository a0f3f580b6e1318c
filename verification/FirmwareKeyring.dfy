/** The keyring helpers and the package evaluation, in place on fixed arrays. */
module FirmwareKeyring {
  import opened Wrappers
  import opened Bytes
  import opened FirmwareTrust

  class Keyring {
    var trustRevision: U32
    var minimumSecurityEpoch: U32
    const releaseKeys: array<TrustKey>
    const developerKeys: array<TrustKey>
    const revokedKeyIds: array<KeyId>

    ghost predicate Valid() {
      && releaseKeys.Length == KEY_SLOTS && developerKeys.Length == KEY_SLOTS
      && revokedKeyIds.Length == REVOKED_SLOTS && releaseKeys != developerKeys
    }

    function View(): TrustState
      requires Valid()
      reads this, releaseKeys, developerKeys, revokedKeyIds
    {
      TrustState(trustRevision, minimumSecurityEpoch, releaseKeys[..], developerKeys[..], revokedKeyIds[..])
    }

    // A copy of a keyring.
    constructor (state: TrustState)
      ensures Valid() && View() == state
      ensures fresh(this) && fresh(releaseKeys) && fresh(developerKeys) && fresh(revokedKeyIds)
    {
      trustRevision, minimumSecurityEpoch := state.trustRevision, state.minimumSecurityEpoch;
      releaseKeys := new TrustKey[KEY_SLOTS](i requires 0 <= i < KEY_SLOTS => state.releaseKeys[i]);
      developerKeys := new TrustKey[KEY_SLOTS](i requires 0 <= i < KEY_SLOTS => state.developerKeys[i]);
      revokedKeyIds := new KeyId[REVOKED_SLOTS](i requires 0 <= i < REVOKED_SLOTS => state.revokedKeyIds[i]);
      new;
      assert releaseKeys[..] == state.releaseKeys && developerKeys[..] == state.developerKeys;
      assert revokedKeyIds[..] == state.revokedKeyIds;
    }

    method IsRevoked(id: KeyId) returns (found: bool)
      requires Valid()
      ensures found == RevokedIn(revokedKeyIds[..], id)
    {
      for index := 0 to revokedKeyIds.Length
        invariant !AllZero(id) ==> id !in revokedKeyIds[..index]
      {
        if !AllZero(revokedKeyIds[index]) && revokedKeyIds[index] == id { return true; }
      }
      return false;
    }

    method AppendRevoked(id: KeyId) returns (ok: bool)
      requires Valid()
      modifies revokedKeyIds
      ensures var r := FirmwareTrust.AppendRevoked(old(revokedKeyIds[..]), id);
              ok == r.Some? && revokedKeyIds[..] == if ok then r.value else old(revokedKeyIds[..])
    {
      if AllZero(id) { return true; }
      for index := 0 to revokedKeyIds.Length
        invariant revokedKeyIds[..] == old(revokedKeyIds[..])
        invariant forall i | 0 <= i < index :: revokedKeyIds[i] != id && !AllZero(revokedKeyIds[i])
      {
        AppendRevokedAt(revokedKeyIds[..], id, index);
        if revokedKeyIds[index] == id { return true; }
        if AllZero(revokedKeyIds[index]) {
          revokedKeyIds[index] := id;
          return true;
        }
      }
      AppendRevokedAt(revokedKeyIds[..], id, revokedKeyIds.Length);
      return false;
    }

    static method ClearKey(keys: array<TrustKey>, id: KeyId)
      modifies keys
      ensures keys[..] == WithoutKey(old(keys[..]), id)
    {
      ghost var was := keys[..];
      for index := 0 to keys.Length
        invariant forall i | 0 <= i < index :: keys[i] == WithoutKey(was, id)[i]
        invariant forall i | index <= i < keys.Length :: keys[i] == was[i]
      {
        if keys[index].occupied && keys[index].keyId == id {
          keys[index] := NO_KEY;
        }
      }
      assert keys[..] == WithoutKey(was, id);
    }

    method RemoveKey(id: KeyId)
      requires Valid()
      modifies releaseKeys, developerKeys
      ensures releaseKeys[..] == WithoutKey(old(releaseKeys[..]), id)
      ensures developerKeys[..] == WithoutKey(old(developerKeys[..]), id)
    {
      ClearKey(releaseKeys, id);
      ClearKey(developerKeys, id);
    }

    method InstallKey(role: Role, id: KeyId, key: PublicKey) returns (ok: bool)
      requires Valid()
      modifies if role == RELEASE then releaseKeys else developerKeys
      ensures var keys := if role == RELEASE then releaseKeys else developerKeys;
              var r := FirmwareTrust.InstallKey(old(keys[..]), revokedKeyIds[..], role, id, key);
              ok == r.Some? && keys[..] == if ok then r.value else old(keys[..])
    {
      var isRevoked := IsRevoked(id);
      if AllZero(id) || !ValidPublicKey(key) || isRevoked { return false; }
      var keys := if role == RELEASE then releaseKeys else developerKeys;
      var same, free := FirstWithId(keys[..], id), FirstFree(keys[..]);
      for index := 0 to keys.Length
        invariant same >= index
        invariant keys[..] == old(keys[..])
      {
        if keys[index].occupied && keys[index].keyId == id {
          keys[index] := keys[index].(publicKey := key);
          return true;
        }
      }
      for index := 0 to keys.Length
        invariant free >= index
        invariant keys[..] == old(keys[..])
      {
        if !keys[index].occupied {
          keys[index] := TrustKey(true, role, id, key);
          return true;
        }
      }
      return false;
    }

    // The checks on one array of keys; `seen` are the ids met so far.
    method CheckKeys(keys: array<TrustKey>, role: Role, seen: seq<TrustKey>) returns (ok: bool, met: seq<TrustKey>)
      requires Valid() && DistinctKeys(seen)
      ensures ok == ((forall i | 0 <= i < keys.Length :: GoodKey(keys[i], role, revokedKeyIds[..])) &&
                     DistinctKeys(seen + keys[..]))
      ensures ok ==> met == seen + keys[..]
    {
      met := seen;
      for index := 0 to keys.Length
        invariant met == seen + keys[..index] && DistinctKeys(met)
        invariant forall i | 0 <= i < index :: GoodKey(keys[i], role, revokedKeyIds[..])
      {
        var key := keys[index];
        assert (seen + keys[..])[|met|] == key;
        assert met == (seen + keys[..])[..|met|];
        if key.occupied {
          var bad := IsRevoked(key.keyId);
          if key.role != role || AllZero(key.keyId) || !ValidPublicKey(key.publicKey) || bad {
            assert !GoodKey(keys[index], role, revokedKeyIds[..]);
            return false, met;
          }
          for earlier := 0 to |met|
            invariant forall i | 0 <= i < earlier :: met[i].occupied ==> met[i].keyId != key.keyId
          {
            if met[earlier].occupied && met[earlier].keyId == key.keyId {
              assert (seen + keys[..])[earlier] == met[earlier];
              assert !DistinctKeys(seen + keys[..]);
              return false, met;
            }
          }
        }
        met := met + [key];
      }
      assert met == seen + keys[..];
      ok := true;
    }

    method CheckRevoked() returns (ok: bool)
      requires Valid()
      ensures ok == DistinctRevoked(revokedKeyIds[..])
    {
      for left := 0 to revokedKeyIds.Length
        invariant forall i, j | 0 <= i < left && i < j < revokedKeyIds.Length ::
                    !AllZero(revokedKeyIds[i]) ==> revokedKeyIds[i] != revokedKeyIds[j]
      {
        if !AllZero(revokedKeyIds[left]) {
          for right := left + 1 to revokedKeyIds.Length
            invariant forall j | left < j < right :: revokedKeyIds[left] != revokedKeyIds[j]
          {
            if revokedKeyIds[left] == revokedKeyIds[right] { return false; }
          }
        }
      }
      ok := true;
    }

    method HasReleaseKey() returns (ok: bool)
      requires Valid()
      ensures ok == exists i | 0 <= i < releaseKeys.Length :: releaseKeys[i].occupied
    {
      for index := 0 to releaseKeys.Length
        invariant forall i | 0 <= i < index :: !releaseKeys[i].occupied
      {
        if releaseKeys[index].occupied { return true; }
      }
      ok := false;
    }

    method IsValidState() returns (ok: bool)
      requires Valid()
      ensures ok == ValidState(View())
    {
      if trustRevision == 0 || minimumSecurityEpoch == 0 { return false; }
      var met;
      ok, met := CheckKeys(releaseKeys, RELEASE, []);
      assert [] + releaseKeys[..] == releaseKeys[..];
      if !ok {
        PrefixDistinct(releaseKeys[..], developerKeys[..]);
        return;
      }
      ok, met := CheckKeys(developerKeys, DEVELOPER, met);
      if !ok { return; }
      ok := CheckRevoked();
      if !ok { return; }
      ok := HasReleaseKey();
    }

    static method FindKey(keys: array<TrustKey>, role: Role, id: KeyId) returns (key: Option<TrustKey>)
      ensures key == FirmwareTrust.FindKey(keys[..], role, id)
    {
      for index := 0 to keys.Length
        invariant FirmwareTrust.FindKey(keys[..], role, id) == FirmwareTrust.FindKey(keys[index..], role, id)
      {
        assert keys[index..][1..] == keys[index + 1..];
        if keys[index].occupied && keys[index].role == role && keys[index].keyId == id {
          return Some(keys[index]);
        }
      }
      key := None;
    }

    // The keyring itself is only read; the decision works on a copy.
    method Evaluate(p: Package, rootId: KeyId, rootKey: PublicKey, v: Verifier) returns (decision: Decision)
      requires Valid()
      ensures decision == FirmwareTrust.Evaluate(p, View(), rootId, rootKey, v)
    {
      var usable := IsValidState();
      if !usable || !ValidPublicKey(rootKey) { return Refused(TRUST_UNAVAILABLE); }
      var signerRevoked := IsRevoked(p.signerKeyId);
      if signerRevoked { return Refused(REVOKED_KEY); }
      if p.signerRole == ROOT_RECOVERY {
        decision := EvaluateRecovery(p, rootId, rootKey, v);
      } else {
        decision := EvaluateRegular(p, v);
      }
    }

    method EvaluateRecovery(p: Package, rootId: KeyId, rootKey: PublicKey, v: Verifier) returns (decision: Decision)
      requires Valid()
      ensures decision == FirmwareTrust.EvaluateRecovery(p, View(), rootId, rootKey, v)
    {
      hide AllZero, ValidState, FirmwareTrust.InstallKey, FirmwareTrust.AppendRevoked, WithoutKey;
      if AllZero(rootId) || p.signerKeyId != rootId { return Refused(UNKNOWN_KEY); }
      if p.trustRevision <= trustRevision { return Refused(TRUST_ROLLBACK); }
      if !v.verify(rootKey, p.signedBytes, p.signature) { return Refused(INVALID_SIGNATURE); }
      if !v.validKey(p.replacementPublicKey, p.replacementKeyId) { return Refused(INVALID_RECOVERY); }
      var next := new Keyring(View());
      next.RemoveKey(p.revokedKeyId);
      var ok := next.AppendRevoked(p.revokedKeyId);
      if !ok { return Refused(KEY_CAPACITY_EXCEEDED); }
      ok := next.InstallKey(p.replacementKeyRole, p.replacementKeyId, p.replacementPublicKey);
      if !ok { return Refused(KEY_CAPACITY_EXCEEDED); }
      next.trustRevision := p.trustRevision;
      next.minimumSecurityEpoch := p.securityEpoch;
      ok := next.IsValidState();
      if !ok { return Refused(INVALID_RECOVERY); }
      decision := Accepted(true, next.View());
    }

    method EvaluateRegular(p: Package, v: Verifier) returns (decision: Decision)
      requires Valid()
      ensures decision == FirmwareTrust.EvaluateRegular(p, View(), v)
    {
      if p.securityEpoch < minimumSecurityEpoch { return Refused(SECURITY_ROLLBACK); }
      if p.trustRevision != trustRevision { return Refused(TRUST_REVISION_MISMATCH); }
      var key := FindKey(if p.signerRole == RELEASE then releaseKeys else developerKeys, p.signerRole, p.signerKeyId);
      if key.None? {
        var otherRole := if p.signerRole == RELEASE then DEVELOPER else RELEASE;
        var other := FindKey(if otherRole == RELEASE then releaseKeys else developerKeys, otherRole, p.signerKeyId);
        return Refused(if other.None? then UNKNOWN_KEY else ROLE_MISMATCH);
      }
      if !v.verify(key.value.publicKey, p.signedBytes, p.signature) { return Refused(INVALID_SIGNATURE); }
      if p.signerRole == DEVELOPER && p.securityEpoch != minimumSecurityEpoch {
        return Refused(SECURITY_EPOCH_MISMATCH);
      }
      decision := Accepted(false, View());
      if p.signerRole == RELEASE && p.securityEpoch > minimumSecurityEpoch {
        decision := Accepted(true, View().(minimumSecurityEpoch := p.securityEpoch));
      }
    }
  }

  lemma PrefixDistinct(a: seq<TrustKey>, b: seq<TrustKey>)
    ensures DistinctKeys(a + b) ==> DistinctKeys(a)
  {
    if DistinctKeys(a + b) {
      forall i, j | 0 <= i < j < |a|
        ensures a[i].occupied && a[j].occupied ==> a[i].keyId != a[j].keyId {
        assert (a + b)[i] == a[i] && (a + b)[j] == a[j];
      }
    }
  }
}
