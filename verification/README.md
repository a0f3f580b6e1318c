# Radar API server: a verified model

The firmware component `components/radar_api_server` lets radar nodes of one site share a floorplan,
install signed updates, authenticate each other, form groups with a leader, and drive their LD2410
sensors.  This project models the parts of it whose correctness rests on protocols, codecs and
in-place algorithms, and proves the properties those parts are there to give.

Each component has the same layout.  Code that changes state step by step is a class or a method with
loops, proved equal to a specification function of the old state; the properties are lemmas about those
functions, and lemmas over whole runs.

| part | modules |
|---|---|
| signed updates: headers, trust policy, keyring, its codec and store | `PackageHeader`, `FirmwareTrust`, `FirmwareKeyring`, `TrustCodec`, `TrustMedium`, `TrustStore`, `TrustRuns`, `PackageBuilder`, `RecoveryConditions`, `TrustMemory`, `TrustStaleExample` |
| chunked upload | `UploadSession`, `UploadRuns` |
| credentials: registry, codec, two-slot store | `Credentials`, `CredentialRegistry`, `CredentialCodec`, `CredentialMedium`, `CredentialStore`, `CredentialCrash` |
| handing credentials over | `Provisioning`, `ProvisioningExchange`, `ProvisioningProof`, `ProvisioningMerge`, `UnstorableIdExample`, `CredentialSource`, `SourceRotation` |
| group rosters and membership | `SiteConfiguration`, `GroupRoster`, `RosterBuffer`, `RosterCanon`, `GroupMembership`, `MembershipBuilder`, `MembershipAgreement` |
| the roster's two-slot store | `RosterMedium`, `RosterStore`, `RosterCrash`, `RosterMigration` |
| group election and heartbeats | `LeaderRules`, `GroupElection`, `ElectionSteps`, `LeaderSafety`, `GroupCoordination`, `GroupCoordinator`, `CoordinatorRuns` |
| LD2410 commands and frames | `AckHistory`, `CommandTransaction`, `CommandRuns`, `FrameParser`, `FrameRecognition` |
| floorplan patching | `JsonText`, `JsonScan`, `JsonRanges`, `JsonMembers`, `JsonLiteral`, `FloorplanPatch`, `FloorplanPatchProof`, `FloorplanRoomProof`, `MemberNames`, `RoomMatching` |
| shared | `Wrappers`, `Bytes`, `Clock`, `Flash`, `CommitRecords`, `TwoSlot` |

`dafny verify dfyconfig.toml` checks the whole project.

## Assumptions

- Millisecond clocks and sequence counters are 32-bit and compared by signed difference, as in the code.
  Where that stands for an order of instants, the instants are less than half the range apart.  In
  `CommandRuns`, fewer than 2^31 - 1 acknowledgements arrive between two updates.
- Storage is a list of faults, one for each write or sync: it works, writes nothing, writes but reports
  failure, or tears.  A power loss is a failing call followed by a load.  Torn bytes do not decode
  (`TearsVisibly`).  Commit records of the trust store are written atomically (`AtomicCommits`); those
  of the other two stores may tear.
- Signatures are an arbitrary predicate on key, message and signature; the digests of election views
  are arbitrary functions of the view.
- A node never receives its own heartbeat.  Member ids of a configuration are unique, its unoccupied
  slots are blank, and endpoint tables hold an id once, where a lemma says so.
- C strings are sequences of characters compared by code, a null string is the empty one where the code
  treats both alike, and the bits of the attempted-source mask are a set of slot numbers.

## What the proofs found

- A keyring commit that was written but reported as failed leaves the old keyring in memory, and until
  the next load packages under the key just revoked are accepted.  This is so for every device and every
  recovery that revokes a key in memory (`TrustMemory.SlippedRecovery`) or the root key itself
  (`TrustMemory.SlippedRootRecovery`); both with concrete headers in `TrustStaleExample`.  Memory is
  current if and only if no commit slipped in this way since the last load
  (`TrustRuns.CommitLeavesCurrent` for one commit, `TrustRuns.CurrentExactly` for runs).  Some package
  under a revoked id is accepted if and only if memory has a key with the id, or the id is the root's,
  memory has not revoked it, and a recovery can still be made (`TrustMemory.RevokedIsRefusedExactly`).
- The range of a number, `true`, `false` or `null` member includes the blanks after it, so patching such
  a member also removes them (`JsonRanges.ValueEndOf`).
- Members are found by the text of their names and rooms by the text of their ids, so a document in which
  another writer spelled either with different escapes can be misread (`RoomMatching.EscapedIdIsMissed`,
  `RoomMatching.EscapedNameIsMissed`).  `MemberNames.NameExactly` and `RoomMatching.SeekExactly` give the
  exact conditions for finding what names and ids denote; documents written by this program meet them.
- Configurations admit ids with a colon, the credential registry does not.  A bundle that needs such an
  id always fails (`ProvisioningProof.UnstorableIdFails`, and a valid configuration for which it does is
  `UnstorableIdExample.ColonOwnerFails`).  Besides a missing or disabled source this is the only way:
  past its checks a preparation succeeds if and only if every needed member has a source and a storable
  id (`ProvisioningProof.PreparesExactly`); ids that are not needed play no part.
- A store created where the other slot still holds an old generation is initialised only when that
  generation is 2 (`CredentialCrash.CreateInitialises`); otherwise its contents are current, but the other
  slot counts as the newer one.
- A first roster migration that tears its slot into bytes that are neither a roster nor empty blocks the
  store: every later migration, load and update fails.  After any other failure the next migration
  completes it (`RosterMigration.MigrationRecovers`).
- There are twenty member slots and nineteen credential slots, but a bundle never overflows, because the
  requester needs no entry for itself (`ProvisioningProof.EntriesFit`).

## Model

| member | source | states |
|---|---|---|
| `PackageHeader.CheckText` | components/radar_api_server/firmware_update_security.cpp:56-70 | the text check accepts exactly: printable characters, then zeros to the end, neither part empty |
| `PackageHeader.ParsedParts` | components/radar_api_server/firmware_update_security.cpp:334-412 | a header that parses is 320 bytes, is its signed bytes followed by its signature, and names an image within the size limit |
| `PackageHeader.SignedBytesDecide` | components/radar_api_server/firmware_update_security.cpp:334-412 | everything a parse yields except the signature is decided by the signed bytes |
| `FirmwareTrust.AppendRevokedAt` | components/radar_api_server/firmware_update_security.cpp:114-127 | a revocation goes to the first slot that is free or already holds the id, and fails when there is none |
| `FirmwareTrust.AppendRevokedKeeps` | components/radar_api_server/firmware_update_security.cpp:114-127 | after a revocation exactly the earlier ids and the new one are revoked |
| `FirmwareTrust.AcceptedIsSigned` | components/radar_api_server/firmware_update_security.cpp:432-539 | an accepted package was evaluated on a valid keyring, its signer id is not revoked, its signature verifies under the key of its role, and outside recovery it matches the trust revision and does not go below the minimum epoch |
| `FirmwareTrust.AcceptedAdvances` | components/radar_api_server/firmware_update_security.cpp:432-539 | the keyring of an accepted decision is valid, is later in (revision, epoch) order whenever it differs, and keeps every revocation |
| `FirmwareTrust.RecoveryInstalls` | components/radar_api_server/firmware_update_security.cpp:461-512 | an accepted recovery revokes the named id and installs the replacement under its role, in a keyring that stays valid |
| `FirmwareKeyring.Keyring.IsRevoked` | components/radar_api_server/firmware_update_security.cpp:86-95 | the scan answers whether a nonzero id is in the revoked list |
| `FirmwareKeyring.Keyring.AppendRevoked` | components/radar_api_server/firmware_update_security.cpp:114-127 | the array update is the one specified, and a failure changes nothing |
| `FirmwareKeyring.Keyring.RemoveKey` | components/radar_api_server/firmware_update_security.cpp:129-139 | both arrays lose exactly the keys with the id |
| `FirmwareKeyring.Keyring.InstallKey` | components/radar_api_server/firmware_update_security.cpp:141-174 | the key with the id gets the new public key, else the first free slot of the role takes the new key; a failure changes nothing |
| `FirmwareKeyring.Keyring.IsValidState` | components/radar_api_server/firmware_update_security.cpp:176-227 | the nested checks decide: keys well formed, ids unique across both roles, none revoked, revoked ids distinct, a release key present |
| `FirmwareKeyring.Keyring.Evaluate` | components/radar_api_server/firmware_update_security.cpp:432-539 | the decision and the next keyring are those of the trust policy |
| `TrustCodec.EncodeState` | components/radar_api_server/firmware_update_security.cpp:229-262 | the buffer ends up holding the encoded keyring, and only a valid keyring with a nonzero generation is encoded |
| `TrustCodec.DecodeState` | components/radar_api_server/firmware_update_security.cpp:264-305 | reading field after field gives the decoded slot, with the same failures |
| `TrustCodec.SlotRoundTrip` | components/radar_api_server/firmware_update_security.cpp:229-305 | decoding an encoded valid keyring gives it back field by field with its generation |
| `TrustCodec.CommitRoundTrip` | components/radar_api_server/firmware_update_security.cpp:307-332 | decoding an encoded commit record gives it back |
| `TrustStore.Store.Load` | components/radar_api_server/firmware_update_security.cpp:593-640 | a load follows the commit record alone when there is one, and otherwise adopts the newest slot and repairs the record |
| `TrustStore.Store.Create` | components/radar_api_server/firmware_update_security.cpp:642-653 | creation writes slot 0 at generation 1 and then the record, and on success hands back the snapshot |
| `TrustStore.Store.StageUpdate` | components/radar_api_server/firmware_update_security.cpp:668-705 | staging writes the slot the record does not name, or refuses with the specified result |
| `TrustStore.Store.CommitStaged` | components/radar_api_server/firmware_update_security.cpp:707-743 | committing checks the staged slot and the record and writes one record |
| `TrustStore.Store.Update` | components/radar_api_server/firmware_update_security.cpp:655-666 | an update is a staging followed by its commit |
| `TrustRuns.LoadNeverFallsBack` | components/radar_api_server/firmware_update_security.cpp:593-640 | with a commit record present, a load gives the committed keyring or fails, and writes nothing |
| `TrustRuns.LoadWithoutCommit` | components/radar_api_server/firmware_update_security.cpp:608-640 | without a record the highest generation is adopted, staged or not |
| `TrustRuns.StageKeepsCommitted` | components/radar_api_server/firmware_update_security.cpp:668-705 | staging under any faults leaves the committed keyring committed; a staged slot decodes to the proposed keyring at the next generation |
| `TrustRuns.CommitIsAtomic` | components/radar_api_server/firmware_update_security.cpp:707-743 | under any fault the commit leaves the old keyring committed or makes exactly the staged one committed, never a mix |
| `TrustRuns.AcceptedIsStorable` | components/radar_api_server/firmware_update_security.cpp:668-705 | an accepted decision that asks for a keyring update is refused only when the generation counter is exhausted or the medium fails, and otherwise its keyring becomes the committed one |
| `TrustRuns.StepAdvances` | components/radar_api_server/firmware_update_security.cpp:432-743 | every evaluate, stage, commit, crash or load keeps the node sound and only advances the committed keyring |
| `TrustRuns.RunAdvances` | components/radar_api_server/firmware_update_security.cpp:432-743 | over any run with crashes (revision, epoch) rises lexicographically, generations rise and the revoked set grows |
| `TrustRuns.CommittedStaysValid` | components/radar_api_server/firmware_update_security.cpp:176-227 | every keyring a run commits has ids unique across roles, none of them revoked, and a release key |
| `TrustRuns.CommitLeavesCurrent` | components/radar_api_server/firmware_update_security.cpp:707-743 | after a commit made with the committed keyring in memory, memory holds the committed keyring if and only if it is not so that the checks pass and the medium writes the record and then fails |
| `TrustRuns.StaleIsStuck` | components/radar_api_server/firmware_update_security.cpp:668-743 | memory that is behind the record can neither stage nor commit, and changes nothing |
| `TrustRuns.UpdateThenLoads` | components/radar_api_server/firmware_update_security.cpp:593-743 | whatever fails in an update, and wherever it stops, the next load gives the old keyring or exactly the new one, and the new one after a reported success |
| `TrustRuns.CreatedIsGood` | components/radar_api_server/firmware_update_security.cpp:642-653 | after a creation on any medium that reports success the node satisfies the invariant of all runs, with the initial keyring committed and in memory |
| `TrustRuns.LoadedIsReady` | components/radar_api_server/firmware_update_security.cpp:593-640 | so it does after any load that answers, whatever the medium held |
| `TrustRuns.CurrentExactly` | components/radar_api_server/firmware_update_security.cpp:432-743 | a run ends with the committed keyring in memory if and only if no commit since the last load, or since a start with current memory, passed its checks and was written by a failing call |
| `TrustRuns.CleanRunsKeepCurrent` | components/radar_api_server/firmware_update_security.cpp:432-743 | so it does in every run whose medium, since the last load, wrote no record by a failing call |
| `TrustRuns.RevokedStaysRefused` | components/radar_api_server/firmware_update_security.cpp:432-539 | in such a run a package under an id revoked at any earlier time is refused |
| `TrustRuns.SlipLeavesStale` | components/radar_api_server/firmware_update_security.cpp:668-743 | every device with current memory and a due update can slip: a commit written by a failing call commits the new keyring and leaves the old one in memory |
| `RecoveryConditions.RecoveryFits` | components/radar_api_server/firmware_update_security.cpp:461-512 | the keyring a recovery makes of a valid one is valid if and only if there is room: the revoked id fits in without a repetition, the new id is neither revoked nor under the other role, a slot of its role is free, freed or its own, and a release key remains |
| `RecoveryConditions.RecoveryAcceptedExactly` | components/radar_api_server/firmware_update_security.cpp:432-512 | a recovery is accepted if and only if the root id signs it and is not revoked, the revision is later, both verifier checks pass, and the keyring has room for it |
| `TrustMemory.HeldKeyAccepts` | components/radar_api_server/firmware_update_security.cpp:514-539 | whoever can sign with a key in memory has a header that is read and accepted |
| `TrustMemory.RootAccepts` | components/radar_api_server/firmware_update_security.cpp:461-512 | whoever can sign with the root key has a recovery that is read and accepted while memory has not revoked it, a later revision is left and some admissible replacement has room |
| `TrustMemory.AcceptsExactly` | components/radar_api_server/firmware_update_security.cpp:334-539 | for any keyring in memory, some package of any role under an id is accepted if and only if the keyring has a key with the id, or the id is the root's, not revoked there, and can still make a recovery |
| `TrustMemory.RevokedIsRefusedExactly` | components/radar_api_server/firmware_update_security.cpp:432-743 | over any run the same holds of every id the record revoked, and no package under it is accepted when no commit slipped since the last load |
| `TrustMemory.SlippedRecovery` | components/radar_api_server/firmware_update_security.cpp:461-743 | for every device and every recovery that revokes a key in memory, such a slip leaves the key revoked in the record and its holder with a package that is accepted |
| `TrustMemory.SlippedRootRecovery` | components/radar_api_server/firmware_update_security.cpp:461-743 | for every device and every recovery that revokes the root key itself, such a slip leaves the root key revoked in the record, and the same recovery is accepted again |
| `TrustRuns.CommitKeeps` | components/radar_api_server/firmware_update_security.cpp:707-743 | a commit keeps the node sound, only advances the committed keyring, and leaves memory current if and only if it was current and the commit did not slip |
| `TrustRuns.RebootKeeps` | components/radar_api_server/firmware_update_security.cpp:593-640 | after a restart and load memory holds the committed keyring |
| `TrustStaleExample.RevokedKeyAcceptedFromStaleMemory` | components/radar_api_server/firmware_update_security.cpp:707-743 | a concrete run with two packages read from 320-byte headers: the commit of a revocation is written but reported as failed, and a package under the revoked key is then accepted from the keyring still in memory |
| `TrustStaleExample.RevokedRootAcceptedFromStaleMemory` | components/radar_api_server/firmware_update_security.cpp:461-743 | a concrete run: a recovery that revokes the root key slips, memory has no key under the root id, and the recovery is accepted again |
| `UploadSession.UploadObject.Begin` | components/radar_api_server/firmware_update_session.cpp:20-49 | a session starts only from an authorised header and holds its package and decision |
| `UploadSession.UploadObject.Take` | components/radar_api_server/firmware_update_session.cpp:60-119 | a chunk is checked against the header, then streamed to the sink, with every refusal of the specification |
| `UploadSession.UploadObject.Done` | components/radar_api_server/firmware_update_session.cpp:121-141 | a finish is accepted only at the expected size and ends the session |
| `UploadSession.UploadObject.ExpireAt` | components/radar_api_server/firmware_update_session.cpp:143-149 | expiry aborts an overdue session, and does nothing otherwise |
| `UploadSession.UploadObject.CancelSession` | components/radar_api_server/firmware_update_session.cpp:151-157 | cancelling aborts the named session, and does nothing otherwise |
| `UploadRuns.StepKeeps` | components/radar_api_server/firmware_update_session.cpp:20-157 | every call keeps the record of what was accepted in step with what the sink was given; a complete upload delivered exactly the authorised header and image |
| `UploadRuns.CompleteDelivers` | components/radar_api_server/firmware_update_session.cpp:60-141 | whatever sequence of calls ends in completion, the sink saw one begin, writes that join to exactly the image, and one finish, and every begin of the run is closed once |
| `UploadRuns.FeedCompletes` | components/radar_api_server/firmware_update_session.cpp:60-141 | any split of header and image into chunks, each arriving at its own time, completes if no call comes later than the time-out after the one before it, and expires otherwise, given a sink that does not fail |
| `CredentialRegistry.Registry.Set` | components/radar_api_server/participant_credentials.cpp:109-140 | the array gets the record in its own slot or the first free one, or is refused for an invalid record, a token collision or lack of room |
| `CredentialRegistry.Registry.SetEnabled` | components/radar_api_server/participant_credentials.cpp:142-154 | exactly the record with the id changes its flag |
| `CredentialRegistry.Registry.Erase` | components/radar_api_server/participant_credentials.cpp:156-168 | exactly the record with the id is removed |
| `CredentialRegistry.Registry.Clear` | components/radar_api_server/participant_credentials.cpp:170-173 | every slot is empty afterwards |
| `CredentialRegistry.Registry.Find` | components/radar_api_server/participant_credentials.cpp:175-185 | the scan finds the record with the id, or tells there is none |
| `CredentialRegistry.Registry.Size` | components/radar_api_server/participant_credentials.cpp:216-223 | the number of occupied records |
| `Credentials.SetKeepsValid` | components/radar_api_server/participant_credentials.cpp:109-140 | ids and tokens stay unique when a record is set |
| `Credentials.SetEnabledKeepsValid` | components/radar_api_server/participant_credentials.cpp:142-154 | ids and tokens stay unique when a record is switched on or off |
| `Credentials.EraseKeepsValid` | components/radar_api_server/participant_credentials.cpp:156-168 | ids and tokens stay unique when a record is erased |
| `Credentials.FindIsMembership` | components/radar_api_server/participant_credentials.cpp:175-185 | with unique ids, finding a record is its being in the table |
| `Credentials.CompactKeeps` | components/radar_api_server/participant_credentials.cpp:175-185 | moving the records together changes no lookup |
| `CredentialStore.Store.EncodeRegistry` | components/radar_api_server/participant_credentials.cpp:225-266 | generation zero is refused and changes nothing; otherwise the buffer ends up holding the encoded records in slot order, within the fixed bound |
| `CredentialStore.Store.DecodeRegistry` | components/radar_api_server/participant_credentials.cpp:268-309 | setting the records one by one gives the decoded registry, with the same failures |
| `CredentialCodec.RoundTrip` | components/radar_api_server/participant_credentials.cpp:225-309 | decoding an encoded registry gives the same generation and the occupied records in slot order, compacted |
| `CommitRecords.CommitReads` | components/radar_api_server/participant_credentials.cpp:81-105 | decoding an encoded commit record of a two-slot store gives it back |
| `CredentialStore.Store.Write` | components/radar_api_server/participant_credentials.cpp:336-356 | the slot is written and synced before the record |
| `CredentialStore.Store.Load` | components/radar_api_server/participant_credentials.cpp:358-395 | a load follows the record when its slot holds that generation, else adopts the newest slot and repairs the record |
| `CredentialStore.Store.Create` | components/radar_api_server/participant_credentials.cpp:397-409 | creation writes slot 0 at generation 1, and on success hands back the registry as the snapshot |
| `CredentialStore.Store.Update` | components/radar_api_server/participant_credentials.cpp:411-434 | an update writes the slot the record does not name, at the next generation, and refuses a stale snapshot; on success it hands back the registry at that generation |
| `CredentialCrash.BlobRoundTrip` | components/radar_api_server/participant_credentials.cpp:225-356 | a slot written whole decodes to the written records at the written generation |
| `CredentialCrash.LoadRefines` | components/radar_api_server/participant_credentials.cpp:358-395 | a load gives the current contents and changes at most the record, whatever fails or tears |
| `CredentialCrash.UpdateRefines` | components/radar_api_server/participant_credentials.cpp:411-434 | an update is, at every point where it can stop or tear, a step of the two-slot protocol; on success the snapshot handed back is what was asked for at the next generation |
| `CredentialCrash.UpdateThenLoads` | components/radar_api_server/participant_credentials.cpp:358-434 | after an update that may fail or tear anywhere, every load gives exactly the old contents or exactly the new ones, and the same ones again after a repair that failed or tore |
| `CredentialCrash.RunIsPath` | components/radar_api_server/participant_credentials.cpp:358-434 | a run of the store with faults is a run of the two-slot protocol |
| `CredentialCrash.RunNeverFallsBack` | components/radar_api_server/participant_credentials.cpp:358-434 | between any two moments of a run with faults generations do not fall, and what is current at the later one was current at the earlier one or was written in between |
| `CredentialCrash.RunLoads` | components/radar_api_server/participant_credentials.cpp:358-434 | at any moment of a run with faults a load gives the contents of any earlier moment or contents written since |
| `CredentialCrash.SavedSurvives` | components/radar_api_server/participant_credentials.cpp:358-434 | once an update has reported success, later loads of the run give its contents or those of later updates |
| `CredentialCrash.CreateInitialises` | components/radar_api_server/participant_credentials.cpp:397-409 | a creation that reports success, under any faults, leaves its records current at generation 1; the store is then initialised if and only if the other slot does not decode or holds generation 2 |
| `TwoSlot.WriteIsUpdate` | components/radar_api_server/participant_credentials.cpp:411-434 | writing the other slot and then the record is a protocol step, torn or not |
| `TwoSlot.UpdateStepSafe` | components/radar_api_server/participant_credentials.cpp:411-434 | after a protocol update step the old or the new contents are current |
| `TwoSlot.PathSafe` | components/radar_api_server/participant_credentials.cpp:358-434 | between any two states of a run of protocol steps generations do not fall, and the later current value was current at the earlier state or was written in between |
| `ProvisioningExchange.CredentialsComplete` | components/radar_api_server/credential_provisioning.cpp:343-362 | the loop decides whether every credential the node needs is there and enabled |
| `ProvisioningExchange.PrepareBundle` | components/radar_api_server/credential_provisioning.cpp:475-532 | the bundle registry and the result are those specified |
| `ProvisioningExchange.MergeBundle` | components/radar_api_server/credential_provisioning.cpp:534-585 | the registry, the changed flag and the result are those specified; merging with the registry as its own scratch is refused and changes nothing |
| `ProvisioningProof.SourceIsInjective` | components/radar_api_server/credential_provisioning.cpp:497-514 | the mapping of members to source records never uses a record twice |
| `ProvisioningProof.PreparesExactly` | components/radar_api_server/credential_provisioning.cpp:475-532 | past its argument, responder and requester checks, preparing succeeds if and only if the responder has an enabled source credential for every member the requester needs and the registry can store every such id |
| `ProvisioningProof.PrepareOutcome` | components/radar_api_server/credential_provisioning.cpp:475-532 | then the bundle has exactly one record for each member the requester needs |
| `ProvisioningProof.PrepareStops` | components/radar_api_server/credential_provisioning.cpp:499-523 | otherwise the first needed member without one or the other decides the result: a missing source, or an invalid bundle; the bundle is left empty |
| `ProvisioningProof.UnstorableIdFails` | components/radar_api_server/credential_provisioning.cpp:516-523 | whatever the configuration and the bundle, a needed member whose id the registry cannot store makes the filling fail |
| `UnstorableIdExample.ColonOwnerFails` | components/radar_api_server/credential_provisioning.cpp:475-532 | a configuration that passes validation and a responder with a credential for everything that is needed, for which preparing fails because the owner's id holds a colon |
| `ProvisioningProof.BundleHolds` | components/radar_api_server/credential_provisioning.cpp:499-515 | under each needed id the bundle holds the mapped source record, enabled |
| `ProvisioningProof.OwnerEntryBinds` | components/radar_api_server/credential_provisioning.cpp:460-532 | when the owner is active and not the requester, its entry binds the requester: it is the responder's record of the requester |
| `ProvisioningMerge.MergeOutcome` | components/radar_api_server/credential_provisioning.cpp:534-585 | a merge of a covering bundle replaces the registry by the bundle exactly when some record or the number of records differs |
| `ProvisioningMerge.MergeCompletes` | components/radar_api_server/credential_provisioning.cpp:534-585 | such a merge leaves the node complete, and a second merge reports that nothing changes |
| `ProvisioningMerge.FailedMergeKeeps` | components/radar_api_server/credential_provisioning.cpp:534-585 | a merge that does not succeed leaves the registry as it was |
| `ProvisioningMerge.PreparedBundleCompletes` | components/radar_api_server/credential_provisioning.cpp:343-585 | for every configuration with unique ids, a bundle prepared for a node merges there, makes it complete whatever it held before, and merges again as already complete |
| `CredentialSource.SelectSource` | components/radar_api_server/credential_provisioning.cpp:200-281 | the scans choose the specified endpoint |
| `CredentialSource.SelectIsBest` | components/radar_api_server/credential_provisioning.cpp:200-281 | a selection gives a qualifying endpoint while there is one, and a bootstrap-only one only when no exactly ready one remains |
| `SourceRotation.SmallestIsLeast` | components/radar_api_server/credential_provisioning.cpp:246-263 | within one class of readiness the endpoint with the smallest id is chosen |
| `SourceRotation.MarkTakesOne` | components/radar_api_server/credential_provisioning.cpp:186-220 | marking the bit of an endpoint takes away exactly that candidate |
| `SourceRotation.RotationVisitsAll` | components/radar_api_server/credential_provisioning.cpp:200-281 | repeated selection with each result marked asks exactly the usable endpoints |
| `SourceRotation.RotationIsOnce` | components/radar_api_server/credential_provisioning.cpp:200-281 | it asks none of them twice |
| `SourceRotation.ExactComeFirst` | components/radar_api_server/credential_provisioning.cpp:236-281 | it asks no bootstrap-only source before an exactly ready one |
| `SourceRotation.RotationEnds` | components/radar_api_server/credential_provisioning.cpp:186-281 | it stops after at most as many selections as there are unasked member slots |
| `PackageBuilder.BuiltParses` | scripts/firmware-signing.mjs:221-284 | a header laid out from a manifest and a signature is read by the device if and only if the manifest is good, and then gives back every field |
| `PackageBuilder.ParsedIsBuilt` | components/radar_api_server/firmware_update_security.cpp:334-412 | every header the device reads is the one laid out from its own good manifest |
| `ProvisioningProof.SuccessorIsLeast` | components/radar_api_server/site_configuration.cpp:929-950 | the successor may take over, and no member that may has a smaller id |
| `SiteConfiguration.FoundIsMember` | components/radar_api_server/site_configuration.cpp:506-516 | with unique ids, looking a member up finds it |
| `RosterBuffer.Buffer.Gather` | components/radar_api_server/group_roster.cpp:383-411 | the group's members are copied in slot order, or the preparation stops where it must |
| `RosterBuffer.Buffer.Sort` | components/radar_api_server/group_roster.cpp:417-422 | the array's used part is sorted by id in place, the rest untouched |
| `RosterBuffer.Buffer.Prepare` | components/radar_api_server/group_roster.cpp:365-428 | the roster buffer and the result are those specified; bad arguments leave the buffer alone |
| `RosterCanon.CollectIsChosen` | components/radar_api_server/group_roster.cpp:383-411 | collecting succeeds exactly when the group has at most seven members in one space, and gives them all |
| `RosterCanon.SortSorts` | components/radar_api_server/group_roster.cpp:417-422 | the prepared members are in id order |
| `RosterCanon.SortedIsUnique` | components/radar_api_server/group_roster.cpp:417-422 | with distinct ids there is only one such order |
| `RosterCanon.PreparedFromChosen` | components/radar_api_server/group_roster.cpp:365-428 | a prepared roster is valid and made of exactly the group's active members |
| `RosterCanon.RosterIsCanonical` | components/radar_api_server/group_roster.cpp:365-428 | permuting the configuration's member slots gives the identical roster |
| `RosterStore.Store.Load` | components/radar_api_server/group_roster.cpp:514-565 | a load needs both slots and the record to be readable, follows the record when its slot holds that generation, and otherwise repairs it |
| `RosterStore.Store.WriteSlot` | components/radar_api_server/group_roster.cpp:499-512 | the slot is written and synced before the record |
| `RosterStore.Store.Create` | components/radar_api_server/group_roster.cpp:567-584 | creation writes a valid roster to slot 0 at generation 1, and on success hands it back |
| `RosterStore.Store.Update` | components/radar_api_server/group_roster.cpp:586-623 | an update loads first, leaves an unchanged payload alone, and writes the other slot at the next generation; it hands back the roster that is stored |
| `RosterStore.Store.LoadOrMigrate` | components/radar_api_server/group_roster.cpp:625-640 | an empty store is filled from the configuration; the roster loaded or created is handed back |
| `RosterCrash.LoadRefines` | components/radar_api_server/group_roster.cpp:514-565 | a load gives the current roster or fails, and changes at most the record |
| `RosterCrash.UpdateSafe` | components/radar_api_server/group_roster.cpp:586-623 | whatever fails or tears, after an update the old roster or the new one is current, and the new one if success was reported |
| `RosterCrash.UpdateThenLoads` | components/radar_api_server/group_roster.cpp:514-623 | every load after a torn or failed update that answers gives exactly the old roster or exactly the new one, and the answers agree |
| `RosterCrash.RunIsPath` | components/radar_api_server/group_roster.cpp:514-623 | a run of the store with faults is a run of the two-slot protocol; an update loads and then writes |
| `RosterCrash.RunNeverFallsBack` | components/radar_api_server/group_roster.cpp:514-623 | between any two moments of a run with faults generations do not fall, and what is current at the later one was current at the earlier one or was written in between |
| `RosterCrash.RunLoads` | components/radar_api_server/group_roster.cpp:514-623 | at any moment of a run with faults a load that answers gives the roster of any earlier moment or one written since |
| `RosterMigration.MigrationInitialises` | components/radar_api_server/group_roster.cpp:625-640 | whatever fails or tears in the first migration of an unused medium, the store is ready with the prepared roster once its first slot can be read, as it can whenever success is reported |
| `RosterMigration.MigrationRecovers` | components/radar_api_server/group_roster.cpp:514-640 | a later migration on a medium that works completes it, if and only if the first one did not leave torn bytes in the first slot that do not read as empty; then every load, update and migration fails and changes nothing |
| `MembershipBuilder.Builder.FromConfiguration` | components/radar_api_server/group_membership.cpp:50-103 | the view filled in place is the one specified for a configuration |
| `MembershipBuilder.Builder.FromRoster` | components/radar_api_server/group_membership.cpp:105-144 | the view filled in place is the one specified for a roster; there is always room for the members |
| `MembershipAgreement.AssignedIsChosen` | components/radar_api_server/group_membership.cpp:71-99 | when the two criteria agree, the members counted directly are those a roster is made of, in the same order |
| `MembershipAgreement.RosterAgrees` | components/radar_api_server/group_membership.cpp:50-144 | for every node of a prepared roster the membership from the roster and the one from the configuration have the same members, eligibility, counts, scope and revision |
| `ElectionSteps.TallyCandidates` | components/radar_api_server/group_coordinator.cpp:639-694 | one pass counts who is online and keeps the preferred candidate and the incumbent |
| `ElectionSteps.DirectoryOverride` | components/radar_api_server/group_coordinator.cpp:696-756 | the directory's leader replaces the winner when it can lead |
| `ElectionSteps.EndorsedOverride` | components/radar_api_server/group_coordinator.cpp:800-901 | a winner endorsed by a majority replaces the winner |
| `ElectionSteps.FindEndorsed` | components/radar_api_server/group_coordinator.cpp:804-840 | the first digest with a majority of complete votes of one version |
| `ElectionSteps.CountEndorsements` | components/radar_api_server/group_coordinator.cpp:1016-1067 | the votes for the current view, for a remembered one and for any other are counted as specified |
| `ElectionSteps.JudgeVote` | components/radar_api_server/group_coordinator.cpp:946-1109 | quorum, fence, endorsements and remembered views are those specified |
| `GroupCoordinator.Coordinator.ElectLeader` | components/radar_api_server/group_coordinator.cpp:566-1168 | the group slot after an election is the one specified |
| `GroupCoordinator.Coordinator.Reconcile` | components/radar_api_server/group_coordinator.cpp:539-564 | exactly the lapsed heartbeats are cleared |
| `GroupCoordinator.Coordinator.Scope` | components/radar_api_server/group_coordinator.cpp:149-250 | the group slot after its scope is resolved is the one specified |
| `GroupCoordinator.Coordinator.Update` | components/radar_api_server/group_coordinator.cpp:112-297 | the coordinator after an update is the one specified |
| `GroupCoordinator.Coordinator.AcceptHeartbeat` | components/radar_api_server/group_coordinator.cpp:307-397 | the coordinator and the result after a heartbeat are those specified |
| `GroupCoordinator.Coordinator.Clear` | components/radar_api_server/group_coordinator.cpp:399-404 | everything is cleared |
| `LeaderSafety.TallyIsSound` | components/radar_api_server/group_coordinator.cpp:639-694 | the first pass only puts forward this node when ready or a ready peer, and so for the incumbent |
| `LeaderSafety.WinnerIsPreferred` | components/radar_api_server/group_coordinator.cpp:639-694 | before the overriding stages no candidate outranks the winner: smallest penalty first, then smallest id, in whatever slots the heartbeats are |
| `LeaderSafety.OnlineCounts` | components/radar_api_server/group_coordinator.cpp:618-661 | the online count is this node, if it may take part, and the present heartbeats |
| `LeaderSafety.ElectedIsSound` | components/radar_api_server/group_coordinator.cpp:610-902 | through the directory, incumbent and endorsed stages the winner stays this node when ready or a ready peer |
| `LeaderSafety.ElectionIsSafe` | components/radar_api_server/group_coordinator.cpp:566-1168 | a leader among several expected participants has a majority online, an unexpired lease, and is this node when ready or the sender of a live heartbeat that is active, eligible, in the group, with complete credentials and an enabled stored credential where a registry is given; the local flag tells exactly whether it is this node |
| `LeaderSafety.ElectionKeepsTerm` | components/radar_api_server/group_coordinator.cpp:566-1168 | an election never lowers the group's term |
| `LeaderSafety.ElectionHoldsOrRises` | components/radar_api_server/group_coordinator.cpp:1085-1168 | after any election the lead is with whom it was, in charge or suspended, or the term has risen, unless the counter is exhausted |
| `LeaderSafety.NewLeaderRaisesTerm` | components/radar_api_server/group_coordinator.cpp:1126-1168 | when an election replaces a leader by another, the term rises, unless the counter is exhausted |
| `LeaderSafety.TakeOverRaisesTerm` | components/radar_api_server/group_coordinator.cpp:1126-1168 | taking over from a suspended leader needs a later term as well |
| `CoordinatorRuns.UpdateKeeps` | components/radar_api_server/group_coordinator.cpp:112-297 | an update keeps the heartbeat slots distinct, remote and bounded by the membership |
| `CoordinatorRuns.AcceptKeeps` | components/radar_api_server/group_coordinator.cpp:307-397 | accepting a heartbeat keeps them so |
| `CoordinatorRuns.NeverFull` | components/radar_api_server/group_coordinator.cpp:522-537 | in a bounded group that admits this node, no member's heartbeat is refused for lack of room |
| `CoordinatorRuns.OnlineIsBounded` | components/radar_api_server/group_coordinator.cpp:149-177 | after an update of such a group no more participants are online than are expected |
| `CoordinatorRuns.UpdateIsSafe` | components/radar_api_server/group_coordinator.cpp:112-297 | after every update with a committed configuration and several participants expected, a leader is safe |
| `CoordinatorRuns.UpdateRises` | components/radar_api_server/group_coordinator.cpp:112-297 | an update lowers neither the term of a group that stays nor the sequence of a slot that stays |
| `CoordinatorRuns.AcceptRises` | components/radar_api_server/group_coordinator.cpp:355-397 | an accepted heartbeat of the same boot has a later sequence than the stored one |
| `CoordinatorRuns.RunKeeps` | components/radar_api_server/group_coordinator.cpp:112-404 | the slot invariant holds in every state of every run of updates, heartbeats and clears |
| `CoordinatorRuns.RunRises` | components/radar_api_server/group_coordinator.cpp:307-397 | along a run the sequence of a slot that stays with one boot of one sender only rises |
| `CoordinatorRuns.RunKeepsTerm` | components/radar_api_server/group_coordinator.cpp:112-404 | along a run the term of a group that stays only rises |
| `CoordinatorRuns.RunHoldsOrRises` | components/radar_api_server/group_coordinator.cpp:112-404 | along a run, while a group stays, its lead is with whom it was or its term has risen, unless the counter is exhausted |
| `CoordinatorRuns.LeadersDiffer` | components/radar_api_server/group_coordinator.cpp:112-404 | along a run, two different leaders of a group that stays never have the same term, short of the end of the counter |
| `LeaderRules.TakingOverRaises` | components/radar_api_server/role_election_fence.h:240-282 | authority passes from one leader to another, in charge or suspended, only with a term later than the current and the suspended one, or at the end of the counter |
| `LeaderRules.TermNeverFalls` | components/radar_api_server/role_election_fence.h:240-282 | no decision gives a term below the current one |
| `Clock.ReachedInstant` | components/radar_api_server/ld2410_stream_health.cpp:243-246 | within half the counter's range the signed difference compares the instants themselves |
| `AckHistory.WireOrder` | components/radar_api_server/ld2410_stream_health.cpp:248-251 | within half the counter's range the signed difference orders the acknowledgements themselves, across the wrap that skips zero |
| `AckHistory.Ring.Observe` | components/radar_api_server/ld2410_stream_health.cpp:433-446 | the ring shows the last eight acknowledgements, numbered |
| `AckHistory.Ring.Snapshot` | components/radar_api_server/ld2410_stream_health.cpp:544-550 | a snapshot lists them oldest first |
| `CommandTransaction.Transaction.Start` | components/radar_api_server/ld2410_stream_health.cpp:92-117 | a start is refused while busy or for bad arguments, and otherwise resets everything but what it is given |
| `CommandTransaction.Transaction.MatchAck` | components/radar_api_server/ld2410_stream_health.cpp:162-176 | the scan stops at the first newer acknowledgement of the expected command and counts the others |
| `CommandTransaction.Transaction.Update` | components/radar_api_server/ld2410_stream_health.cpp:119-241 | the transaction and the action after an update are those specified |
| `CommandRuns.ScanFinds` | components/radar_api_server/ld2410_stream_health.cpp:162-176 | from any point on, a scan finds only an acknowledgement of the expected command newer than its cursor, or leaves the cursor at the newest |
| `CommandRuns.StepCommand` | components/radar_api_server/ld2410_stream_health.cpp:272-363 | every step of every operation has its command |
| `CommandRuns.StepKeeps` | components/radar_api_server/ld2410_stream_health.cpp:119-241 | every update keeps the record of sent commands disciplined |
| `CommandRuns.RunIsDisciplined` | components/radar_api_server/ld2410_stream_health.cpp:92-370 | in every run the commands sent are a prefix of the operation's sequence and at most one closing abort; each later one was sent after a zero-result acknowledgement of its predecessor newer than that one's sending; a run that ends sent a disabling or restarting command last, and completes only with the whole sequence sent |
| `CommandRuns.UpdateProgresses` | components/radar_api_server/ld2410_stream_health.cpp:119-241 | an update of a busy transaction waits before its deadline, changing only which acknowledgements were looked at, or strictly lowers the measure; running out of commands never happens |
| `CommandRuns.StartMeasure` | components/radar_api_server/ld2410_stream_health.cpp:92-117 | a started transaction's measure is twice its sequence length plus three |
| `CommandRuns.DueCallsFinish` | components/radar_api_server/ld2410_stream_health.cpp:119-241 | as many due calls as the measure bring any transaction to its end, whatever the stream shows |
| `FrameParser.Receiver.ObserveByte` | components/radar_api_server/ld2410_stream_health.cpp:417-431 | the receiver after a byte is the one specified |
| `FrameParser.Receiver.ObserveIdleByte` | components/radar_api_server/ld2410_stream_health.cpp:565-589 | the matchers advance and a header opens a frame |
| `FrameRecognition.AdvanceMatches` | components/radar_api_server/ld2410_stream_health.cpp:657-663 | a matcher always holds the longest end of the idle bytes that begins its header |
| `FrameRecognition.NextKeeps` | components/radar_api_server/ld2410_stream_health.cpp:565-603 | each byte keeps the account of the stream |
| `FrameRecognition.EveryByteAccounted` | components/radar_api_server/ld2410_stream_health.cpp:417-603 | every byte stream is cut into junk without a header, delivered frames with their first footer at the end, over-long frames of fifty bytes, and what is still held, each byte in one of them |
| `FrameRecognition.BurstDelivered` | components/radar_api_server/ld2410_stream_health.cpp:565-603 | from any state between frames, junk and a frame deliver exactly that frame |
| `FrameRecognition.FramesDelivered` | components/radar_api_server/ld2410_stream_health.cpp:565-603 | frames separated by junk are delivered one for one, each with exactly its bytes |
| `JsonScan.ScanStringEnd` | components/radar_api_server/floorplan_handler.cpp:116-135 | the scan gives the specified end of a string |
| `JsonScan.ScanValueEnd` | components/radar_api_server/floorplan_handler.cpp:137-182 | the scan gives the specified end of a value |
| `JsonScan.ScanMemberRange` | components/radar_api_server/floorplan_handler.cpp:204-239 | the scan gives the specified range of a member's value |
| `JsonRanges.StringEndOf` | components/radar_api_server/floorplan_handler.cpp:116-135 | the end of a well-formed string is its closing quote, through every escape |
| `JsonRanges.SkipsValue` | components/radar_api_server/floorplan_handler.cpp:137-182 | inside any bracket the nesting scan passes exactly over any rendered value |
| `JsonRanges.ValueEndOf` | components/radar_api_server/floorplan_handler.cpp:137-182 | at the start of any rendered value the scanner returns its end; after a number, true, false or null that includes the blanks after it |
| `JsonMembers.FindMemberOf` | components/radar_api_server/floorplan_handler.cpp:204-239 | for every rendered object and key, the range found is that of the first member with that key, and none is found exactly when there is none |
| `JsonLiteral.JsonStringLiteral` | components/radar_api_server/floorplan_handler.cpp:241-281 | the literal appended piece by piece is the specified escaping |
| `JsonLiteral.LiteralRoundTrip` | components/radar_api_server/floorplan_handler.cpp:241-281 | reading the literal's escapes gives the string back |
| `JsonLiteral.EscapeInjective` | components/radar_api_server/floorplan_handler.cpp:241-286 | two strings with the same literal are equal |
| `JsonLiteral.LiteralWf` | components/radar_api_server/floorplan_handler.cpp:241-281 | the literal is a well-formed JSON string |
| `FloorplanPatch.ScanObjectRange` | components/radar_api_server/floorplan_handler.cpp:184-196 | the document must be one object with nothing but blanks around it |
| `FloorplanPatch.PatchMember` | components/radar_api_server/floorplan_handler.cpp:740-758 | the patched document is the one specified |
| `FloorplanPatch.PatchRoomName` | components/radar_api_server/floorplan_handler.cpp:760-807 | the patched document is the one specified |
| `FloorplanPatchProof.SetMemberKeepsOthers` | components/radar_api_server/floorplan_handler.cpp:740-758 | replacing a member keeps every other member |
| `FloorplanPatchProof.SetMemberWf` | components/radar_api_server/floorplan_handler.cpp:740-758 | replacing a member keeps the tree well formed |
| `FloorplanPatchProof.PatchMemberCommutes` | components/radar_api_server/floorplan_handler.cpp:740-758 | for every tree and white space, patching the text of a document is the text of the document with the first member replaced whose name is written so, and fails exactly when there is none |
| `MemberNames.NameExactly` | components/radar_api_server/floorplan_handler.cpp:204-239 | the first member whose name denotes a plain name is found if and only if that member's name, if any, is written without escapes |
| `MemberNames.WrittenNames` | components/radar_api_server/floorplan_handler.cpp:204-239 | in an object whose names this program wrote it always is |
| `MemberNames.PatchMemberNamed` | components/radar_api_server/floorplan_handler.cpp:740-758 | in such documents patching the text replaces the first member whose name denotes the given one, and fails exactly when there is none |
| `MemberNames.PatchMemberMisses` | components/radar_api_server/floorplan_handler.cpp:740-758 | a member that a document has is missed, and nothing patched, if and only if the first so named is written with escapes and no later one without |
| `FloorplanRoomProof.FindRoomOf` | components/radar_api_server/floorplan_handler.cpp:772-804 | the range found is that of the name of the first room with the id |
| `FloorplanRoomProof.PatchRoomNameCommutes` | components/radar_api_server/floorplan_handler.cpp:760-807 | for every tree and white space, renaming a room in the text is the text of the document with the first room renamed whose id is spelled as this program spells it, and fails exactly when there is no such room to rename |
| `RoomMatching.IsRoomExactly` | components/radar_api_server/floorplan_handler.cpp:283-286 | a room matches if and only if its first member written as id denotes the string and is spelled as this program spells it |
| `RoomMatching.RoomExactly` | components/radar_api_server/floorplan_handler.cpp:772-787 | that agrees with what its first member named id denotes, if and only if this member's name and value do not mislead: both written as this program writes them, or else a later plain id with the same answer |
| `RoomMatching.SeekExactly` | components/radar_api_server/floorplan_handler.cpp:772-804 | the room found is the first one that has the id, by what names and values denote, if and only if no room up to it misleads |
| `RoomMatching.PatchRenamesNamed` | components/radar_api_server/floorplan_handler.cpp:760-807 | in a document that does not mislead, in its rooms and in the names rooms, id and name, the patched text is that of the document with the first room renamed that has the id |
| `RoomMatching.WrittenIsSpelled` | components/radar_api_server/floorplan_handler.cpp:772-804 | rooms whose names and ids this program wrote do not mislead |
| `RoomMatching.WrittenPlan` | components/radar_api_server/floorplan_handler.cpp:760-807 | nor does a document whose names and ids this program wrote |
| `RoomMatching.EscapedIdIsMissed` | components/radar_api_server/floorplan_handler.cpp:760-807 | the document whose only room has an escape of the letter a as its id is not patched for room a, under any name |
| `RoomMatching.EscapedNameIsMissed` | components/radar_api_server/floorplan_handler.cpp:760-807 | nor is the document whose only room has the plain id a under an escaped name id |

## Left out

- HTTP requests and responses, streaming, dashboard assets, storage of documents: input and output around the modelled functions.
- Signature checks, key derivation, HMAC, flash and partition access, sockets, mutexes and memory allocation: calls into other libraries; signatures and storage are parameters.
- `firmware_update_handler.cpp`: it drives the platform's update interface; the upload sink stands for it.
- The digests of election views and of configurations (`role_election_fence.h`, `site_configuration.cpp`): arbitrary functions here, since no property needs more of them.
- Agreement of several nodes on one leader: it would need the digests to be collision free and a model of all nodes' clocks.
- The site configuration codec: `RosterMedium.Codec` is any codec that reads back what it wrote; that the real one does is not proved.
- Validation of a whole site configuration (`valid_configuration`) is the predicate `SiteConfiguration.ValidConfiguration`, without the code that decides it; its outcome is an input of `Provisioning.Successor`.
- The participant registry and the readiness registry: a list of participants and a function giving the group of a ready record.
- `LD2410` stream health beyond framing and acknowledgements: stall detection, reports and the meaning of a frame's fields; also the watchdog of the same file.
- `reconcile_site_credential_registry`, bootstrap readiness and sender selection in `credential_provisioning.cpp`: single loops without a cross-function property.
- `select_group_roster_leader` and the runtime records of `group_membership.cpp`: they would only add easy members.
- Floating-point geometry, presence scoring and text tables of enumerations.
- Concurrency: calls on one object do not overlap in the source either.
- Commit records are encoded and decoded by functions, not written byte by byte into a buffer.
- The stores' load methods decode a slot as a value; decoding into a registry in place is `CredentialStore.Store.DecodeRegistry`.
- The vector of digests in the alternate-revision vote is unbounded; the source keeps nineteen, more than the six heartbeats can fill.
- Refused decisions carry no keyring; the source leaves a copy of the current one in that field.
- Characters of C strings beyond seven bits: `char` comparison is by code, and text in strings is not decoded further.
- FloorplanPatchProof.PatchMemberCommutes: members are found by the text of their names, as the code does; `MemberNames` relates that to what the names denote.
- FloorplanRoomProof.PatchRoomNameCommutes: rooms are found by the text of names and ids, as the code does; `RoomMatching` relates that to what they denote.
- TrustRuns.RevokedStaysRefused: for runs in which, since the last load, no commit record is written by a failing call; `TrustMemory.SlippedRecovery` shows that it fails otherwise.
- TrustMemory.RevokedIsRefusedExactly: where the holder of a key can sign any message.
- ProvisioningProof.PrepareOutcome: the successful case of `ProvisioningProof.PreparesExactly`; `ProvisioningProof.PrepareStops` is the other one.
- UploadRuns.FeedCompletes: for a sink that accepts every call.
- PackageBuilder.BuiltParses: the layout of the header; digests and signatures made by the release tool are inputs.
- CredentialCrash.UpdateThenLoads: torn slots and records are assumed not to decode.
- RosterCrash.UpdateThenLoads: torn slots and records are assumed not to decode, and the medium can be read.
