/** The roster of one group, made from the site configuration. */
module GroupRoster {
  import opened Wrappers
  import opened Bytes
  import opened SiteConfiguration

  const MAX_GROUP := 7

  datatype Roster = Roster(siteId: string, groupId: string, spaceId: string, leaderId: string, generation: U32,
                           revision: U32, committed: bool, floorplan: Floorplan, members: seq<Member>)

  datatype RosterResult = RosterOk | InvalidArgument | InvalidRoster | GroupNotFound | LeaderNotFound | GroupFull

  function Blanks(n: nat): (s: seq<Member>)
    ensures |s| == n && forall i | 0 <= i < n :: s[i] == BLANK_MEMBER
  {
    seq(n, _ => BLANK_MEMBER)
  }

  const NO_ROSTER := Roster("", "", "", "", 0, 0, false, NO_FLOORPLAN, Blanks(MAX_GROUP))

  function Occupied(members: seq<Member>): nat {
    if members == [] then 0 else (if members[0].occupied then 1 else 0) + Occupied(members[1..])
  }

  function FindInRoster(r: Roster, id: string): Option<Member> {
    if id == "" then None else FindMember(r.members, id)
  }

  predicate ValidRosterMember(r: Roster, m: Member) {
    && ValidText(m.id, MAX_ID) && m.kind == NamoNode && m.membership == Active
    && m.profile.committed && m.profile.groupId == r.groupId && m.profile.spaceId == r.spaceId
    && m.profile.poseVersion != 0 && m.profile.calibrationVersion != 0 && ValidTransform(m.profile.transform)
  }

  predicate ValidRosterHeader(r: Roster) {
    && r.committed && r.revision != 0
    && ValidText(r.siteId, MAX_ID) && ValidText(r.groupId, MAX_ASSIGNMENT_ID)
    && ValidText(r.spaceId, MAX_ASSIGNMENT_ID) && ValidText(r.leaderId, MAX_ID)
    && r.floorplan.committed && ValidText(r.floorplan.id, MAX_ID)
    && r.floorplan.geometryVersion != 0 && r.floorplan.configHash != 0 && r.floorplan.imageHash != 0
  }

  predicate ValidRoster(r: Roster) {
    && ValidRosterHeader(r) && 0 < Occupied(r.members) <= MAX_GROUP
    && UniqueIds(r.members)
    && (forall i | 0 <= i < |r.members| :: r.members[i].occupied ==> ValidRosterMember(r, r.members[i]))
    && exists i | 0 <= i < |r.members| :: IsMember(r.members[i], r.leaderId) && r.members[i].leaderEligible
  }

  predicate Belongs(m: Member, groupId: string) {
    m.occupied && m.membership == Active && m.profile.committed && m.profile.groupId == groupId
  }

  // The roster's copy of a member: measurement details of its transform are dropped.
  function Normalized(m: Member): (n: Member)
    ensures n.id == m.id && n.occupied == m.occupied && n.leaderEligible == m.leaderEligible
    ensures n.kind == m.kind && n.membership == m.membership
    ensures n.profile.spaceId == m.profile.spaceId && n.profile.groupId == m.profile.groupId
  {
    m.(profile := m.profile.(transform := m.profile.transform.(residual := 0, samples := 1, reserved := 0)))
  }

  function Collect(members: seq<Member>, groupId: string, chosen: seq<Member>): (r: (seq<Member>, RosterResult))
    ensures r.1 == RosterOk || r.1 == GroupFull || r.1 == InvalidRoster
  {
    if members == [] then (chosen, RosterOk)
    else if !Belongs(members[0], groupId) then Collect(members[1..], groupId, chosen)
    else if |chosen| >= MAX_GROUP then ([], GroupFull)
    else if chosen != [] && chosen[0].profile.spaceId != members[0].profile.spaceId then ([], InvalidRoster)
    else Collect(members[1..], groupId, chosen + [Normalized(members[0])])
  }

  function Insert(sorted: seq<Member>, m: Member): (s: seq<Member>)
    ensures |s| == |sorted| + 1
    ensures multiset(s) == multiset(sorted) + multiset{m}
  {
    var n := |sorted| - 1;
    if sorted == [] || !Less(m.id, sorted[n].id) then sorted + [m]
    else
      assert sorted == sorted[..n] + [sorted[n]];
      Insert(sorted[..n], m) + [sorted[n]]
  }

  function SortById(members: seq<Member>): (s: seq<Member>)
    ensures |s| == |members| && multiset(s) == multiset(members)
  {
    if members == [] then []
    else
      var n := |members| - 1;
      assert members == members[..n] + [members[n]];
      Insert(SortById(members[..n]), members[n])
  }

  function Assemble(c: Configuration, groupId: string, leaderId: string, chosen: seq<Member>): Roster {
    var padding := if |chosen| <= MAX_GROUP then Blanks(MAX_GROUP - |chosen|) else [];
    Roster(c.siteId, groupId, if chosen == [] then "" else chosen[0].profile.spaceId, leaderId, 0, c.rosterRevision, true,
           c.floorplan, SortById(chosen) + padding)
  }

  function PrepareRoster(c: Configuration, groupId: string, leaderId: string): (Roster, RosterResult) {
    if groupId == "" || leaderId == "" || !c.rosterCommitted || !c.floorplan.committed then (NO_ROSTER, InvalidArgument)
    else
      var (chosen, r) := Collect(c.members, groupId, []);
      var candidate := Assemble(c, groupId, leaderId, chosen);
      if r != RosterOk then (NO_ROSTER, r)
      else if chosen == [] then (NO_ROSTER, GroupNotFound)
      else if FindInRoster(candidate, leaderId).None? then (NO_ROSTER, LeaderNotFound)
      else if !ValidRoster(candidate) then (NO_ROSTER, InvalidRoster)
      else (candidate, RosterOk)
  }

  // Two rosters say the same, apart from their generation.
  predicate SamePayload(a: Roster, b: Roster) {
    && a.siteId == b.siteId && a.groupId == b.groupId && a.spaceId == b.spaceId && a.leaderId == b.leaderId
    && a.revision == b.revision && a.committed == b.committed && a.floorplan == b.floorplan
    && |a.members| == |b.members|
    && forall i | 0 <= i < |a.members| :: SameMember(a.members[i], b.members[i])
  }

  predicate SameMember(a: Member, b: Member) {
    Forget(a) == Forget(b)
  }

  // Everything but the unused bits of the transform.
  function Forget(m: Member): Member {
    m.(profile := m.profile.(transform := m.profile.transform.(reserved := 0)))
  }
}
