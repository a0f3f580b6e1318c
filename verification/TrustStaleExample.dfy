/** Where the policy is weaker than its intent: a commit record that was written although the call
    failed leaves the old keyring in memory, and packages are still judged by it until the next load. */
module TrustStaleExample {
  import opened Wrappers
  import opened Bytes
  import opened FirmwareTrust
  import opened TrustCodec
  import opened Flash
  import opened TrustMedium
  import opened TrustRuns
  import opened PackageHeader
  import opened PackageBuilder
  import opened RecoveryConditions
  import TrustMemory

  function Id(b: Byte): KeyId {
    [b, b, b, b, b, b, b, b, b, b, b, b, b, b, b, b]
  }

  const POINT: PublicKey := [4, 1] + Zeros(63)

  function ReleaseKey(b: Byte): TrustKey {
    TrustKey(true, RELEASE, Id(b), POINT)
  }

  // Release key 1 is trusted; a recovery package signed by root key 9 replaces it by key 2.
  const BEFORE := TrustState(1, 1, [ReleaseKey(1), NO_KEY], [NO_KEY, NO_KEY], [NO_ID, NO_ID, NO_ID, NO_ID])
  const AFTER := TrustState(2, 1, [ReleaseKey(2), NO_KEY], [NO_KEY, NO_KEY], [Id(1), NO_ID, NO_ID, NO_ID])
  const NO_SIGNATURE: Signature := Zeros(SIGNATURE_SIZE)

  function Recovering(): Manifest {
    Manifest(ROOT_RECOVERY, 1, 2, 1, Id(9), [1] + Zeros(31), TrustMemory.SOME_TEXT, TrustMemory.SOME_TEXT,
             Id(1), Id(2), POINT, RELEASE)
  }

  // The headers of the two packages.
  function RecoveryHeader(): seq<Byte> {
    SignedPart(Recovering()) + NO_SIGNATURE
  }

  function RegularHeader(): seq<Byte> {
    SignedPart(TrustMemory.ManifestFor(BEFORE, RELEASE, Id(1))) + NO_SIGNATURE
  }

  function RecoveryPackage(): Package {
    PackageFor(Recovering(), NO_SIGNATURE)
  }

  function RegularPackage(): Package {
    PackageFor(TrustMemory.ManifestFor(BEFORE, RELEASE, Id(1)), NO_SIGNATURE)
  }

  function AnySignature(key: PublicKey, message: seq<Byte>, signature: seq<Byte>): bool { true }

  function AnyKey(key: PublicKey, id: KeyId): bool { true }

  const CONFIG := Config(Id(9), POINT, Verifier(AnySignature, AnyKey))

  function Start(): Node {
    var s := Snapshot(1, BEFORE);
    Node(Medium([Some(SlotBytes(BEFORE, 1)), None], Some(CommitBytes(CommitRecord(0, 1, 1))), []), Some(s), None, None)
  }

  lemma KeyringsAreValid()
    ensures ValidState(BEFORE) && ValidState(AFTER) && ValidPublicKey(POINT)
    ensures Id(1) != Id(2) && Id(1) != NO_ID && Id(2) != NO_ID && Id(9) != Id(1) && Id(9) != NO_ID
  {
    assert Id(1)[0] == 1 && Id(2)[0] == 2 && Id(9)[0] == 9 && NO_ID[0] == 0;
    assert POINT[1..][0] == 1;
    assert BEFORE.releaseKeys[0].occupied && AFTER.releaseKeys[0].occupied;
  }

  lemma KeyIsRevoked()
    ensures AppendRevoked(BEFORE.revokedKeyIds, Id(1)) == Some(AFTER.revokedKeyIds)
    ensures !RevokedIn(AFTER.revokedKeyIds, Id(2))
  {
    KeyringsAreValid();
    assert Id(1)[0] == 1;
    assert BEFORE.revokedKeyIds[0] == NO_ID;
    assert [Id(1)] + BEFORE.revokedKeyIds[1..] == AFTER.revokedKeyIds;
  }

  lemma KeyIsInstalled()
    ensures InstallKey([NO_KEY, NO_KEY], AFTER.revokedKeyIds, RELEASE, Id(2), POINT) == Some(AFTER.releaseKeys)
  {
    KeyringsAreValid();
    KeyIsRevoked();
    assert Id(2)[0] == 2 && !AllZero(Id(2));
    assert [NO_KEY, NO_KEY][0 := TrustKey(true, RELEASE, Id(2), POINT)] == AFTER.releaseKeys;
    assert FirstFree([NO_KEY, NO_KEY]) == 0 && FirstWithId([NO_KEY, NO_KEY], Id(2)) == 2;
  }

  lemma HeadersParse()
    ensures ParseHeader(RecoveryHeader()) == Parsed(RecoveryPackage())
    ensures ParseHeader(RegularHeader()) == Parsed(RegularPackage())
  {
    KeyringsAreValid();
    TrustMemory.SomeTextIsText();
    TrustMemory.ManifestIsGood(BEFORE, RELEASE, Id(1));
    RecoveringIsGood();
    hide ParseHeader, GoodManifest, SignedPart, ValidState;
    BuiltParses(Recovering(), NO_SIGNATURE);
    BuiltParses(TrustMemory.ManifestFor(BEFORE, RELEASE, Id(1)), NO_SIGNATURE);
  }

  lemma RecoveringIsGood()
    ensures GoodManifest(Recovering())
  {
    hide ValidText, SignedPart, ValidState;
    KeyringsAreValid();
    TrustMemory.SomeTextIsText();
    assert Id(1)[0] == 1 && Id(2)[0] == 2 && Id(9)[0] == 9;
    assert ([1] + Zeros(31))[0] == 1;
  }

  lemma RecoveryIsAccepted()
    ensures Evaluate(RecoveryPackage(), BEFORE, CONFIG.rootId, CONFIG.rootKey, CONFIG.v) == Accepted(true, AFTER)
  {
    hide ValidState, InstallKey, AppendRevoked, ValidPublicKey;
    KeyringsAreValid();
    KeyIsRevoked();
    KeyIsInstalled();
    assert WithoutKey(BEFORE.releaseKeys, Id(1)) == [NO_KEY, NO_KEY];
    assert WithoutKey(BEFORE.developerKeys, Id(1)) == BEFORE.developerKeys;
    assert Recovered(RecoveryPackage(), BEFORE) == Some(AFTER);
    assert Id(9)[0] == 9 && Id(9) !in BEFORE.revokedKeyIds;
  }

  lemma RegularIsAccepted()
    ensures Evaluate(RegularPackage(), BEFORE, CONFIG.rootId, CONFIG.rootKey, CONFIG.v).Accepted?
  {
    KeyringsAreValid();
    assert HasKey(BEFORE.releaseKeys, RELEASE, Id(1)) by {
      assert BEFORE.releaseKeys[0] == ReleaseKey(1);
    }
    assert Id(1) !in BEFORE.revokedKeyIds;
  }

  lemma StartIsGood()
    ensures Inv(Start()) && Now(Start()) == Snapshot(1, BEFORE)
  {
    hide DecodeSlot, DecodeCommit, SlotBytes, CommitBytes, ValidState;
    KeyringsAreValid();
    SlotRoundTrip(BEFORE, 1);
    CommitRoundTrip(CommitRecord(0, 1, 1));
  }

  function Decided(): Node {
    Node(Start().medium, Start().ram, Some(AFTER), None)
  }

  lemma DecidedIsGood()
    ensures Inv(Decided()) && Current(Decided()) && Now(Decided()) == Snapshot(1, BEFORE)
  {
    StartIsGood();
    KeyringsAreValid();
    assert KeepsRevoked(BEFORE, AFTER);
    hide ValidState, Committed, KeepsRevoked;
  }

  function StagedNode(): (n: Node)
    ensures Sound(n.medium)
  {
    StepSound(Decided(), Stage([]), CONFIG);
    Step(Decided(), Stage([]), CONFIG)
  }

  function FailedNode(): (n: Node)
    ensures Sound(n.medium)
  {
    StepSound(StagedNode(), Commit([WritesButFails]), CONFIG);
    Step(StagedNode(), Commit([WritesButFails]), CONFIG)
  }

  lemma FailedCommit()
    ensures FailedNode().ram == Start().ram && Committed(FailedNode().medium) == Some(Snapshot(2, AFTER))
  {
    DecidedIsGood();
    KeyringsAreValid();
    hide Step, Inv, Current, Committed, ValidState;
    SlipLeavesStale(Decided(), CONFIG);
  }

  lemma RunAppend(n: Node, events: seq<Event>, e: Event, cfg: Config)
    requires Sound(n.medium)
    ensures Run(n, events + [e], cfg) == Step(Run(n, events, cfg), e, cfg)
  {
    assert (events + [e])[..|events|] == events;
  }

  // The run: the recovery arrives, is staged, and its commit is written but reported as failed.
  function Slipped(): Node {
    Run(Start(), [Arrive(RecoveryPackage()), Stage([]), Commit([WritesButFails])], CONFIG)
  }

  lemma TheRun()
    ensures Slipped().ram == Start().ram && Committed(Slipped().medium) == Some(Snapshot(2, AFTER))
  {
    hide Step, Run, Committed, Start, RecoveryPackage;
    FailedCommit();
    RunOne();
    var arrived := [Arrive(RecoveryPackage())];
    RunAppend(Start(), arrived, Stage([]), CONFIG);
    RunAppend(Start(), arrived + [Stage([])], Commit([WritesButFails]), CONFIG);
    assert arrived + [Stage([])] + [Commit([WritesButFails])] ==
           [Arrive(RecoveryPackage()), Stage([]), Commit([WritesButFails])];
  }

  // Key 1 is revoked in the committed keyring, and a package it signed is still accepted.
  lemma RevokedKeyAcceptedFromStaleMemory()
    ensures ParseHeader(RecoveryHeader()) == Parsed(RecoveryPackage())
    ensures ParseHeader(RegularHeader()) == Parsed(RegularPackage())
    ensures var n := Slipped();
            && Inv(Start()) && Committed(n.medium).Some? && n.ram.Some?
            && RevokedIn(Committed(n.medium).value.state.revokedKeyIds, RegularPackage().signerKeyId)
            && Judge(RegularPackage(), n, CONFIG).Accepted?
  {
    hide Slipped, RecoveryHeader, RecoveryPackage, RegularHeader, Committed, Inv, Evaluate, SlotBytes, CommitBytes;
    StartIsGood();
    HeadersParse();
    RegularIsAccepted();
    TheRun();
    assert RevokedIn(AFTER.revokedKeyIds, Id(1)) by {
      assert Id(1)[0] == 1 && AFTER.revokedKeyIds[0] == Id(1);
    }
  }

  lemma RunOne()
    ensures Run(Start(), [Arrive(RecoveryPackage())], CONFIG) == Node(Start().medium, Start().ram, Some(AFTER), None)
  {
    hide Evaluate, SlotBytes, CommitBytes;
    RecoveryIsAccepted();
    assert [Arrive(RecoveryPackage())][..0] == [];
    assert Run(Start(), [], CONFIG) == Start();
  }

  // ---------------------------------------------------------------- the root key revoked

  // A recovery signed by root key 9 that revokes key 9 itself and adds release key 2.
  function RevokingRoot(): Manifest {
    Manifest(ROOT_RECOVERY, 1, 2, 1, Id(9), [1] + Zeros(31), TrustMemory.SOME_TEXT, TrustMemory.SOME_TEXT,
             Id(9), Id(2), POINT, RELEASE)
  }

  function RootHeader(): seq<Byte> {
    SignedPart(RevokingRoot()) + NO_SIGNATURE
  }

  function RootPackage(): Package {
    PackageFor(RevokingRoot(), NO_SIGNATURE)
  }

  function SlippedRoot(): (n: Node)
    ensures Sound(n.medium)
  {
    TrustMemory.Slipped(Start(), RootPackage(), CONFIG)
  }

  lemma RootHeaderParses()
    ensures ParseHeader(RootHeader()) == Parsed(RootPackage())
  {
    KeyringsAreValid();
    TrustMemory.SomeTextIsText();
    assert Id(2)[0] == 2 && Id(9)[0] == 9;
    assert ([1] + Zeros(31))[0] == 1;
    hide ParseHeader, SignedPart, ValidState, ValidText;
    BuiltParses(RevokingRoot(), NO_SIGNATURE);
  }

  lemma RootHasRoom()
    ensures HasRoom(BEFORE, ExchangeOf(RootPackage()))
    ensures Askable(ExchangeOf(RootPackage()))
  {
    hide SignedPart;
    KeyringsAreValid();
    var ids := BEFORE.revokedKeyIds;
    assert Id(2)[0] == 2 && Id(9)[0] == 9;
    assert OpenFor(ids[0], Id(9)) && Id(9) !in ids && Id(2) !in ids;
    assert !BEFORE.releaseKeys[1].occupied;
  }

  lemma RootRevokingIsAccepted()
    ensures Evaluate(RootPackage(), BEFORE, CONFIG.rootId, CONFIG.rootKey, CONFIG.v).Accepted?
  {
    KeyringsAreValid();
    RootHasRoom();
    assert Id(9)[0] == 9 && Id(9) !in BEFORE.revokedKeyIds;
    hide Evaluate, ValidState, HasRoom, Askable, SignedPart, ValidPublicKey;
    RecoveryAcceptedExactly(RootPackage(), BEFORE, CONFIG.rootId, CONFIG.rootKey, CONFIG.v);
  }

  lemma StartIsCurrent()
    ensures Inv(Start()) && Current(Start()) && Now(Start()) == Snapshot(1, BEFORE) && Start().ram == Some(Snapshot(1, BEFORE))
  {
    StartIsGood();
    hide Committed;
  }

  lemma RootRevokesItself()
    ensures RootPackage().signerRole == ROOT_RECOVERY && RootPackage().revokedKeyId == CONFIG.rootId
    ensures CONFIG.rootId == Id(9) && !AllZero(Id(9)) && !TrustMemory.Holds(BEFORE, Id(9))
  {
    assert Id(1)[0] == 1 && Id(9)[0] == 9;
  }

  // When the commit of that recovery slips, the record has revoked the root key, memory has no key under
  // its id, and yet the same recovery is accepted again.
  lemma RevokedRootAcceptedFromStaleMemory()
    ensures ParseHeader(RootHeader()) == Parsed(RootPackage()) && Inv(Start())
    ensures var n := SlippedRoot();
            && Committed(n.medium).Some? && RevokedIn(Committed(n.medium).value.state.revokedKeyIds, Id(9))
            && n.ram == Some(Snapshot(1, BEFORE)) && !TrustMemory.Holds(BEFORE, Id(9))
            && Judge(RootPackage(), n, CONFIG).Accepted?
  {
    hide Evaluate, ParseHeader, Inv, Committed, Start, RootHeader, RootPackage, RevokedIn, Current, ValidState, Id, AllZero,
         TrustMemory.Slipped, TrustMemory.Holds, ValidPublicKey;
    StartIsCurrent();
    RootHeaderParses();
    RootRevokingIsAccepted();
    RootRevokesItself();
    TrustMemory.SlippedKeeps(Start(), RootPackage(), CONFIG);
    TrustMemory.SlippedRootRecovery(Start(), RootHeader(), CONFIG);
  }
}
