/** What a device accepts while its memory is behind the commit record. */
module TrustMemory {
  import opened Wrappers
  import opened Bytes
  import opened FirmwareTrust
  import opened PackageHeader
  import opened PackageBuilder
  import opened Flash
  import opened TrustMedium
  import opened TrustRuns
  import opened RecoveryConditions

  // Whether the keyring has a key with the id.
  predicate Holds(s: TrustState, id: KeyId) {
    HasKey(s.releaseKeys, RELEASE, id) || HasKey(s.developerKeys, DEVELOPER, id)
  }

  // Some header signed under the id is read and accepted.
  ghost predicate AcceptsUnder(n: Node, cfg: Config, id: KeyId)
    requires n.ram.Some?
  {
    exists data: seq<Byte> :: ParseHeader(data).Parsed? && AcceptedUnder(ParseHeader(data).package, n, cfg, id)
  }

  predicate AcceptedUnder(p: Package, n: Node, cfg: Config, id: KeyId)
    requires n.ram.Some?
  {
    p.signerKeyId == id && Judge(p, n, cfg).Accepted?
  }

  // Whoever has the key can sign any message.
  ghost predicate Signs(v: Verifier, key: PublicKey, sign: seq<Byte> -> Signature) {
    forall message :: v.verify(key, message, sign(message))
  }

  const SOME_TEXT: Text := [0x31] + Zeros(23)

  // A package for the keyring's own revision and epoch.
  function ManifestFor(s: TrustState, role: Role, id: KeyId): Manifest {
    Manifest(role, 1, s.trustRevision, s.minimumSecurityEpoch, id, [1] + Zeros(31), SOME_TEXT, SOME_TEXT,
             NO_ID, NO_ID, Zeros(65), 0)
  }

  lemma SomeTextIsText()
    ensures ValidText(SOME_TEXT)
  {
    TextEnds(SOME_TEXT, 1);
  }

  lemma ManifestIsGood(s: TrustState, role: Role, id: KeyId)
    requires ValidState(s) && (role == RELEASE || role == DEVELOPER) && !AllZero(id)
    ensures GoodManifest(ManifestFor(s, role, id))
  {
    hide ValidText, SignedPart;
    SomeTextIsText();
    ZerosAreZero(16);
    ZerosAreZero(65);
    assert ([1] + Zeros(31))[0] == 1;
  }

  lemma HeldKeyIsGood(s: TrustState, role: Role, id: KeyId)
    requires ValidState(s) && (role == RELEASE || role == DEVELOPER) && HasKey(RoleKeys(s, role), role, id)
    ensures !AllZero(id) && !RevokedIn(s.revokedKeyIds, id)
  {
    var keys := RoleKeys(s, role);
    var i :| 0 <= i < |keys| && keys[i].occupied && keys[i].role == role && keys[i].keyId == id;
    assert GoodKey(keys[i], role, s.revokedKeyIds);
  }

  // A key in memory is enough: its holder has a package that is accepted.
  lemma HeldKeyAccepts(n: Node, cfg: Config, role: Role, id: KeyId, sign: seq<Byte> -> Signature)
    requires n.ram.Some? && ValidState(n.ram.value.state) && ValidPublicKey(cfg.rootKey)
    requires role == RELEASE || role == DEVELOPER
    requires var held := FindKey(RoleKeys(n.ram.value.state, role), role, id);
             held.Some? && Signs(cfg.v, held.value.publicKey, sign)
    ensures AcceptsUnder(n, cfg, id)
  {
    var s := n.ram.value.state;
    var m := ManifestFor(s, role, id);
    var signature := sign(SignedPart(m));
    HeldKeyIsGood(s, role, id);
    hide ValidState, SignedPart, GoodManifest, ParseHeader, FindKey, ValidPublicKey;
    ManifestIsGood(s, role, id);
    BuiltParses(m, signature);
    assert AcceptedUnder(PackageFor(m, signature), n, cfg, id);
    assert ParseHeader(SignedPart(m) + signature).Parsed?;
  }

  // The root key can still make a recovery: a later revision is left, and there is a replacement that
  // the verifier admits and the keyring has room for.
  ghost predicate Recoverable(s: TrustState, cfg: Config) {
    s.trustRevision < 0xFFFF_FFFF && exists x :: Admits(s, cfg, x)
  }

  predicate Admits(s: TrustState, cfg: Config, x: Exchange) {
    Askable(x) && cfg.v.validKey(x.key, x.keyId) && HasRoom(s, x)
  }

  // What the keyring in memory lets an id do: it has a key there, or it is the root's, not revoked
  // there, and can still make a recovery.
  ghost predicate Trusted(s: TrustState, cfg: Config, id: KeyId) {
    Holds(s, id) || (id == cfg.rootId && !AllZero(id) && !RevokedIn(s.revokedKeyIds, id) && Recoverable(s, cfg))
  }

  function RecoveryFor(s: TrustState, rootId: KeyId, x: Exchange): Manifest
    requires s.trustRevision < 0xFFFF_FFFF
  {
    Manifest(ROOT_RECOVERY, 1, s.trustRevision + 1, s.minimumSecurityEpoch, rootId, [1] + Zeros(31), SOME_TEXT, SOME_TEXT,
             x.revokedId, x.keyId, x.key, x.role)
  }

  lemma RecoveryIsGood(s: TrustState, rootId: KeyId, x: Exchange)
    requires ValidState(s) && s.trustRevision < 0xFFFF_FFFF && !AllZero(rootId) && Askable(x)
    ensures GoodManifest(RecoveryFor(s, rootId, x))
  {
    hide ValidText, SignedPart;
    SomeTextIsText();
    assert ([1] + Zeros(31))[0] == 1;
  }

  // The root key's holder has a recovery that is accepted.
  lemma RootAccepts(n: Node, cfg: Config, sign: seq<Byte> -> Signature)
    requires n.ram.Some? && ValidState(n.ram.value.state) && ValidPublicKey(cfg.rootKey) && Signs(cfg.v, cfg.rootKey, sign)
    requires !AllZero(cfg.rootId) && !RevokedIn(n.ram.value.state.revokedKeyIds, cfg.rootId)
    requires Recoverable(n.ram.value.state, cfg)
    ensures AcceptsUnder(n, cfg, cfg.rootId)
  {
    var s := n.ram.value.state;
    var x :| Admits(s, cfg, x);
    var m := RecoveryFor(s, cfg.rootId, x);
    var signature := sign(SignedPart(m));
    var p := PackageFor(m, signature);
    assert s.minimumSecurityEpoch != 0;
    hide ValidState, SignedPart, GoodManifest, ParseHeader, ValidPublicKey, HasRoom, Evaluate, AllZero, RevokedIn;
    RecoveryIsGood(s, cfg.rootId, x);
    BuiltParses(m, signature);
    assert ExchangeOf(p) == x;
    RecoveryAcceptedExactly(p, s, cfg.rootId, cfg.rootKey, cfg.v);
    assert AcceptedUnder(p, n, cfg, cfg.rootId);
    assert ParseHeader(SignedPart(m) + signature).Parsed?;
  }

  lemma ParsedFields(data: seq<Byte>)
    requires ParseHeader(data).Parsed?
    ensures var p := ParseHeader(data).package;
            && p.trustRevision != 0 && p.securityEpoch != 0 && !AllZero(p.signerKeyId)
            && (p.signerRole == RELEASE || p.signerRole == DEVELOPER || p.signerRole == ROOT_RECOVERY)
            && (p.signerRole == ROOT_RECOVERY ==> Askable(ExchangeOf(p)))
  {
    hide ValidText, ReadU16;
  }

  // Whoever has a package that is accepted is trusted by the keyring in memory.
  lemma AcceptedIsTrusted(n: Node, cfg: Config, id: KeyId)
    requires n.ram.Some? && AcceptsUnder(n, cfg, id)
    ensures Trusted(n.ram.value.state, cfg, id)
  {
    var data :| ParseHeader(data).Parsed? && AcceptedUnder(ParseHeader(data).package, n, cfg, id);
    var p, s := ParseHeader(data).package, n.ram.value.state;
    ParsedFields(data);
    assert ValidState(s) && ValidPublicKey(cfg.rootKey);
    hide ParseHeader, ValidState, Evaluate, ValidPublicKey, HasRoom, Askable, AllZero, RevokedIn;
    if p.signerRole == ROOT_RECOVERY {
      RecoveryAcceptedExactly(p, s, cfg.rootId, cfg.rootKey, cfg.v);
      assert Admits(s, cfg, ExchangeOf(p));
    } else {
      AcceptedIsSigned(p, s, cfg.rootId, cfg.rootKey, cfg.v);
      var i :| 0 <= i < KEY_SLOTS && RoleKeys(s, p.signerRole)[i].occupied &&
               RoleKeys(s, p.signerRole)[i].role == p.signerRole && RoleKeys(s, p.signerRole)[i].keyId == id;
    }
  }

  // Whoever has a key of the keyring under the id signs with it.
  ghost predicate SignsAll(v: Verifier, s: TrustState, id: KeyId, sign: seq<Byte> -> Signature) {
    forall key | (key in s.releaseKeys || key in s.developerKeys) && key.occupied && key.keyId == id ::
      Signs(v, key.publicKey, sign)
  }

  // Main result: for any keyring in memory, some package under an id is accepted exactly when the
  // keyring trusts the id.
  lemma AcceptsExactly(n: Node, cfg: Config, id: KeyId, sign: seq<Byte> -> Signature, rootSign: seq<Byte> -> Signature)
    requires n.ram.Some? && ValidState(n.ram.value.state) && ValidPublicKey(cfg.rootKey)
    requires SignsAll(cfg.v, n.ram.value.state, id, sign) && (id == cfg.rootId ==> Signs(cfg.v, cfg.rootKey, rootSign))
    ensures AcceptsUnder(n, cfg, id) <==> Trusted(n.ram.value.state, cfg, id)
  {
    hide ValidState, ValidPublicKey, AcceptsUnder, Holds, Recoverable, SignsAll, Signs, RevokedIn, AllZero;
    if AcceptsUnder(n, cfg, id) {
      AcceptedIsTrusted(n, cfg, id);
    } else if Holds(n.ram.value.state, id) {
      HolderAccepts(n, cfg, id, sign);
    } else if Trusted(n.ram.value.state, cfg, id) {
      RootAccepts(n, cfg, rootSign);
    }
  }

  lemma TrustedIsNotRevoked(s: TrustState, cfg: Config, id: KeyId)
    requires ValidState(s) && Trusted(s, cfg, id)
    ensures !RevokedIn(s.revokedKeyIds, id)
  {
    hide ValidState, HasKey, Recoverable, RevokedIn;
    if Holds(s, id) {
      HeldKeyIsGood(s, if HasKey(s.releaseKeys, RELEASE, id) then RELEASE else DEVELOPER, id);
    }
  }

  // Main result: over any run, packages under an id that was revoked are refused exactly when the
  // keyring in memory does not trust the id, and that is so whenever the memory is current.
  lemma RevokedIsRefusedExactly(n: Node, events: seq<Event>, cfg: Config, id: KeyId,
                                sign: seq<Byte> -> Signature, rootSign: seq<Byte> -> Signature)
    requires Inv(n) && AtomicRun(events) && RevokedIn(Now(n).state.revokedKeyIds, id)
    requires ValidPublicKey(cfg.rootKey) && Run(n, events, cfg).ram.Some?
    requires SignsAll(cfg.v, Run(n, events, cfg).ram.value.state, id, sign)
    requires id == cfg.rootId ==> Signs(cfg.v, cfg.rootKey, rootSign)
    ensures var n' := Run(n, events, cfg);
            && (AcceptsUnder(n', cfg, id) <==> Trusted(n'.ram.value.state, cfg, id))
            && (NoSlipSinceLoad(n, events, cfg) ==> !AcceptsUnder(n', cfg, id))
  {
    RunAdvances(n, events, cfg);
    CurrentExactly(n, events, cfg);
    var n' := Run(n, events, cfg);
    assert ValidState(n'.ram.value.state);
    hide Run, AcceptsUnder, Inv, NoSlipSinceLoad, ValidPublicKey, Signs, SignsAll, Trusted, ValidState;
    AcceptsExactly(n', cfg, id, sign, rootSign);
    if Trusted(n'.ram.value.state, cfg, id) {
      TrustedIsNotRevoked(n'.ram.value.state, cfg, id);
    }
  }

  // One run that slips: a package arrives, is staged, and its commit is written by a failing call.
  function Slipped(n: Node, p: Package, cfg: Config): (r: Node)
    requires Sound(n.medium)
    ensures Sound(r.medium)
  {
    StepSound(n, Arrive(p), cfg);
    var n1 := Step(n, Arrive(p), cfg);
    StepSound(n1, Stage([]), cfg);
    var n2 := Step(n1, Stage([]), cfg);
    StepSound(n2, Commit([WritesButFails]), cfg);
    Step(n2, Commit([WritesButFails]), cfg)
  }

  // After such a slip the record has revoked the key the recovery names, and memory is as it was.
  lemma SlippedKeeps(n: Node, p: Package, cfg: Config)
    requires Inv(n) && Current(n) && Now(n).generation < 0xFFFF_FFFF
    requires p.signerRole == ROOT_RECOVERY && !AllZero(p.revokedKeyId) && Judge(p, n, cfg).Accepted?
    ensures var n' := Slipped(n, p, cfg);
            && Committed(n'.medium).Some? && RevokedIn(Committed(n'.medium).value.state.revokedKeyIds, p.revokedKeyId)
            && n'.ram == n.ram && ValidPublicKey(cfg.rootKey) && ValidState(n.ram.value.state)
  {
    assert Sound(n.medium);
    hide Evaluate, ValidState, ValidPublicKey, Inv, Step, RevokedIn, Committed;
    RecoveryAccepted(p, n, cfg);
    ArriveKeeps(n, p, cfg);
    ArriveDecides(n, p, cfg);
    var n1 := Step(n, Arrive(p), cfg);
    SameCurrent(n, n1);
    SlipLeavesStale(n1, cfg);
  }

  // Main result: so the refusal fails for every recovery that revokes a key in memory: the record has
  // revoked the key, and its holder still has a package that is accepted.
  lemma SlippedRecovery(n: Node, p: Package, cfg: Config, sign: seq<Byte> -> Signature)
    requires Inv(n) && Current(n) && Now(n).generation < 0xFFFF_FFFF
    requires p.signerRole == ROOT_RECOVERY && !AllZero(p.revokedKeyId) && Judge(p, n, cfg).Accepted?
    requires Holds(n.ram.value.state, p.revokedKeyId) && SignsAll(cfg.v, n.ram.value.state, p.revokedKeyId, sign)
    ensures var n' := Slipped(n, p, cfg);
            && Committed(n'.medium).Some? && RevokedIn(Committed(n'.medium).value.state.revokedKeyIds, p.revokedKeyId)
            && n'.ram.Some? && AcceptsUnder(n', cfg, p.revokedKeyId)
  {
    assert Sound(n.medium);
    hide Evaluate, ValidState, ValidPublicKey, Inv, SignsAll, AcceptsUnder, Holds, RevokedIn, Committed, Slipped;
    SlippedKeeps(n, p, cfg);
    HolderAccepts(Slipped(n, p, cfg), cfg, p.revokedKeyId, sign);
  }

  // Main result: and for every recovery that revokes the root key itself, even that same recovery is
  // accepted again.
  lemma SlippedRootRecovery(n: Node, data: seq<Byte>, cfg: Config)
    requires Inv(n) && Current(n) && Now(n).generation < 0xFFFF_FFFF && ParseHeader(data).Parsed?
    requires var p := ParseHeader(data).package;
             p.signerRole == ROOT_RECOVERY && p.revokedKeyId == cfg.rootId && Judge(p, n, cfg).Accepted?
    ensures var n' := Slipped(n, ParseHeader(data).package, cfg);
            && Committed(n'.medium).Some? && RevokedIn(Committed(n'.medium).value.state.revokedKeyIds, cfg.rootId)
            && n'.ram.Some? && Judge(ParseHeader(data).package, n', cfg).Accepted? && AcceptsUnder(n', cfg, cfg.rootId)
  {
    var p := ParseHeader(data).package;
    ParsedFields(data);
    AcceptedIsSigned(p, n.ram.value.state, cfg.rootId, cfg.rootKey, cfg.v);
    hide Evaluate, ValidState, ValidPublicKey, Inv, RevokedIn, Committed, Slipped, ParseHeader;
    SlippedKeeps(n, p, cfg);
    assert AcceptedUnder(p, Slipped(n, p, cfg), cfg, cfg.rootId);
  }

  lemma RecoveryAccepted(p: Package, n: Node, cfg: Config)
    requires n.ram.Some? && p.signerRole == ROOT_RECOVERY && !AllZero(p.revokedKeyId) && Judge(p, n, cfg).Accepted?
    ensures var d := Judge(p, n, cfg);
            && ValidPublicKey(cfg.rootKey) && ValidState(n.ram.value.state) && d.updateRequired
            && ValidState(d.next) && RevokedIn(d.next.revokedKeyIds, p.revokedKeyId)
  {
    AcceptedAdvances(p, n.ram.value.state, cfg.rootId, cfg.rootKey, cfg.v);
    hide ValidState, Recovered;
  }

  lemma ArriveDecides(n: Node, p: Package, cfg: Config)
    requires Sound(n.medium) && n.ram.Some? && Judge(p, n, cfg).Accepted? && Judge(p, n, cfg).updateRequired
    ensures Step(n, Arrive(p), cfg).decision == Some(Judge(p, n, cfg).next)
  {
    hide Evaluate;
  }

  lemma SameCurrent(n: Node, n1: Node)
    requires Sound(n.medium) && Current(n) && n1.medium == n.medium && n1.ram == n.ram
    ensures Current(n1)
  {
  }

  lemma HolderAccepts(n: Node, cfg: Config, id: KeyId, sign: seq<Byte> -> Signature)
    requires n.ram.Some? && ValidState(n.ram.value.state) && ValidPublicKey(cfg.rootKey)
    requires Holds(n.ram.value.state, id) && SignsAll(cfg.v, n.ram.value.state, id, sign)
    ensures AcceptsUnder(n, cfg, id)
  {
    var s := n.ram.value.state;
    var role := if HasKey(s.releaseKeys, RELEASE, id) then RELEASE else DEVELOPER;
    var held := FindKey(RoleKeys(s, role), role, id);
    assert held.value in RoleKeys(s, role);
    HeldKeyAccepts(n, cfg, role, id, sign);
    hide AcceptsUnder, ValidState;
  }
}
