/** The site configuration: its members, who is active, and the order of participant ids. */
module SiteConfiguration {
  import opened Wrappers
  import opened Bytes

  const MEMBERS := 20
  const MAX_ID := 64
  const MAX_ASSIGNMENT_ID := 40
  const MAX_ORIGIN := 1000000
  const MAX_ACCEPTED_RESIDUAL := 1000

  datatype ParticipantType = NamoNode | SatelliteNode

  datatype Trust = UnknownTrust | OfficialVerified | CommunityUnverified | SatelliteTrust

  datatype Membership = Quarantined | Active | Revoked

  datatype Transform = Transform(originX: int, originY: int, rotation: int, residual: nat, samples: nat, valid: bool, reserved: nat)

  datatype Profile = Profile(committed: bool, spaceId: string, groupId: string, poseVersion: U32,
                             calibrationVersion: U32, transform: Transform)

  datatype Member = Member(occupied: bool, id: string, kind: ParticipantType, trust: Trust, membership: Membership,
                           leaderEligible: bool, profile: Profile)

  datatype Floorplan = Floorplan(committed: bool, id: string, geometryVersion: U32, configHash: U32, imageHash: U32)

  datatype Configuration = Configuration(siteId: string, ownerId: string, authorityEpoch: U32, generation: U32,
                                         rosterRevision: U32, rosterCommitted: bool, members: seq<Member>, floorplan: Floorplan)

  const NO_TRANSFORM := Transform(0, 0, 0, 0, 0, false, 0)
  const NO_PROFILE := Profile(false, "", "", 0, 0, NO_TRANSFORM)
  const BLANK_MEMBER := Member(false, "", NamoNode, UnknownTrust, Quarantined, false, NO_PROFILE)
  const NO_FLOORPLAN := Floorplan(false, "", 0, 0, 0)

  // The order of C strings.
  predicate Less(a: string, b: string) {
    if b == [] then false
    else if a == [] then true
    else if a[0] != b[0] then a[0] < b[0]
    else Less(a[1..], b[1..])
  }

  lemma {:induction false} LessTotal(a: string, b: string)
    ensures Less(a, b) || Less(b, a) || a == b
  {
    if a != [] && b != [] && a[0] == b[0] {
      LessTotal(a[1..], b[1..]);
      assert a == [a[0]] + a[1..] && b == [b[0]] + b[1..];
    }
  }

  lemma {:induction false} LessStrict(a: string, b: string)
    requires Less(a, b)
    ensures !Less(b, a) && a != b
  {
    if a != [] && a[0] == b[0] {
      LessStrict(a[1..], b[1..]);
    }
  }

  lemma IrreflexiveLess(a: string)
    ensures !Less(a, a)
  {
    if Less(a, a) { LessStrict(a, a); }
  }

  lemma {:induction false} LessTransitive(a: string, b: string, c: string)
    requires Less(a, b) && Less(b, c)
    ensures Less(a, c)
  {
    if a != [] && a[0] == b[0] == c[0] {
      LessTransitive(a[1..], b[1..], c[1..]);
    }
  }

  predicate IsMember(m: Member, id: string) {
    m.occupied && m.id == id
  }

  // The first occupied slot with the id.
  function SlotOf(members: seq<Member>, id: string): (r: nat)
    ensures r <= |members| && (r < |members| ==> IsMember(members[r], id))
    ensures forall i | 0 <= i < r :: !IsMember(members[i], id)
  {
    if members == [] || IsMember(members[0], id) then 0 else 1 + SlotOf(members[1..], id)
  }

  function FindMember(members: seq<Member>, id: string): (m: Option<Member>)
    ensures m.Some? ==> m.value in members && IsMember(m.value, id)
    ensures m.None? ==> forall x | x in members :: !IsMember(x, id)
  {
    var slot := SlotOf(members, id);
    if slot < |members| then Some(members[slot]) else None
  }

  predicate UniqueIds(members: seq<Member>) {
    forall i, j | 0 <= i < j < |members| :: members[i].occupied && members[j].occupied ==> members[i].id != members[j].id
  }

  // With unique ids, finding is membership.
  lemma FoundIsMember(members: seq<Member>, m: Member)
    requires UniqueIds(members) && m in members && m.occupied
    ensures FindMember(members, m.id) == Some(m)
  {
    var i :| 0 <= i < |members| && members[i] == m;
    var slot := SlotOf(members, m.id);
    assert IsMember(members[i], m.id);
  }

  predicate ActiveMember(c: Configuration, id: string) {
    var m := FindMember(c.members, id);
    id != "" && m.Some? && m.value.membership == Active
  }

  // An active member that may lead.
  predicate EligibleMember(c: Configuration, id: string) {
    var m := FindMember(c.members, id);
    m.Some? && m.value.membership == Active && m.value.kind == NamoNode && m.value.leaderEligible
  }

  predicate ValidTransform(t: Transform) {
    && t.valid && -MAX_ORIGIN <= t.originX <= MAX_ORIGIN && -MAX_ORIGIN <= t.originY <= MAX_ORIGIN
    && -18000 <= t.rotation <= 18000 && t.residual <= MAX_ACCEPTED_RESIDUAL && 1 <= t.samples <= 2
  }

  predicate TextStart(c: char) {
    'a' <= c <= 'z' || 'A' <= c <= 'Z' || '0' <= c <= '9'
  }

  predicate ValidText(text: string, most: nat) {
    && 0 < |text| <= most
    && forall i | 0 <= i < |text| :: TextStart(text[i]) || (i > 0 && text[i] in ['.', '_', ':', '-'])
  }

  predicate ValidMember(m: Member) {
    && ValidText(m.id, MAX_ID)
    && (m.leaderEligible ==> m.kind == NamoNode && m.membership == Active)
    && (if m.profile.committed then
          && m.kind == NamoNode && (m.profile.spaceId == "" <==> m.profile.groupId == "")
          && (m.profile.spaceId != "" ==>
                ValidText(m.profile.spaceId, MAX_ASSIGNMENT_ID) && ValidText(m.profile.groupId, MAX_ASSIGNMENT_ID))
          && m.profile.poseVersion != 0 && m.profile.calibrationVersion != 0 && ValidTransform(m.profile.transform)
        else
          && m.profile.poseVersion == 0 && m.profile.calibrationVersion == 0
          && m.profile.spaceId == "" && m.profile.groupId == "" && !m.profile.transform.valid)
  }

  predicate ValidFloorplan(f: Floorplan) {
    if f.committed then ValidText(f.id, MAX_ID) && f.geometryVersion != 0
    else f.id == "" && f.geometryVersion == 0 && f.configHash == 0 && f.imageHash == 0
  }

  // The configurations a node accepts.
  predicate ValidConfiguration(c: Configuration) {
    && ValidText(c.siteId, MAX_ID) && c.authorityEpoch != 0 && c.generation != 0 && c.rosterRevision != 0
    && (c.ownerId == "" || ValidText(c.ownerId, MAX_ID)) && (c.rosterCommitted ==> c.ownerId != "")
    && UniqueIds(c.members) && (exists i | 0 <= i < |c.members| :: c.members[i].occupied)
    && (forall i | 0 <= i < |c.members| :: c.members[i].occupied ==> ValidMember(c.members[i]))
    && (c.ownerId != "" ==> EligibleMember(c, c.ownerId))
    && ValidFloorplan(c.floorplan)
    && (!c.floorplan.committed ==> forall m | m in c.members :: m.occupied ==> !m.profile.committed)
  }
}
