/** The group as one node sees it, from the site configuration or from a stored roster. */
module GroupMembership {
  import opened Wrappers
  import opened Bytes
  import opened SiteConfiguration
  import opened GroupRoster

  datatype GroupMember = GroupMember(id: string, eligible: bool)

  datatype MembershipView = MembershipView(valid: bool, admitted: bool, overCapacity: bool, groupId: string, spaceId: string,
                                           floorplanId: string, revision: U32, configured: Byte, members: seq<GroupMember>)

  datatype MembershipResult =
    | MembershipOk | BadArgument | ConfigurationUnavailable | LocalAssignmentUnavailable | LocalNotAdmitted

  const NO_VIEW := MembershipView(false, false, false, "", "", "", 0, 0, [])

  predicate ValidAssignment(m: Member) {
    && m.kind == NamoNode && m.membership == Active && m.profile.committed
    && m.profile.groupId != "" && m.profile.spaceId != ""
  }

  predicate Lists(members: seq<GroupMember>, id: string) {
    exists i | 0 <= i < |members| :: members[i].id == id
  }

  predicate Contains(v: MembershipView, id: string) {
    v.valid && id != "" && Lists(v.members, id)
  }

  function Brief(m: Member): GroupMember {
    GroupMember(m.id, m.leaderEligible)
  }

  // The members assigned to a group, in slot order.
  function Assigned(members: seq<Member>, groupId: string): (s: seq<GroupMember>)
    ensures |s| <= |members|
  {
    if members == [] then []
    else
      var m := members[|members| - 1];
      Assigned(members[..|members| - 1], groupId) +
      if ValidAssignment(m) && m.profile.groupId == groupId then [Brief(m)] else []
  }

  function AtMost(n: nat, most: nat): nat {
    if n < most then n else most
  }

  // The membership read off the site configuration.
  function DirectView(c: Option<Configuration>, local: string): (MembershipView, MembershipResult) {
    if local == "" then (NO_VIEW, BadArgument)
    else if c.None? || !c.value.rosterCommitted then (NO_VIEW, ConfigurationUnavailable)
    else
      var mine := FindMember(c.value.members, local);
      if mine.None? || !ValidAssignment(mine.value) then (NO_VIEW, LocalAssignmentUnavailable)
      else
        var profile := mine.value.profile;
        var all := Assigned(c.value.members, profile.groupId);
        var members := all[..AtMost(|all|, MAX_GROUP)];
        var admitted := Lists(members, local);
        (MembershipView(true, admitted, |all| > MAX_GROUP, profile.groupId, profile.spaceId,
                        if c.value.floorplan.committed then c.value.floorplan.id else "",
                        c.value.rosterRevision, AtMost(|all|, 255), members),
         if admitted then MembershipOk else LocalNotAdmitted)
  }

  // The other members of a roster, in slot order.
  function Others(members: seq<Member>, local: string): (s: seq<GroupMember>)
    ensures |s| <= |members|
  {
    if members == [] then []
    else
      var m := members[|members| - 1];
      Others(members[..|members| - 1], local) + if m.occupied && m.id != local then [Brief(m)] else []
  }

  // The membership read off a roster: the local node first.
  function RosterView(roster: Option<Roster>, local: string): (MembershipView, MembershipResult) {
    if local == "" then (NO_VIEW, BadArgument)
    else if roster.None? || !ValidRoster(roster.value) then (NO_VIEW, ConfigurationUnavailable)
    else
      var r := roster.value;
      var header := MembershipView(true, false, false, r.groupId, r.spaceId, r.floorplan.id, r.revision, Occupied(r.members), []);
      var mine := FindInRoster(r, local);
      if mine.None? then (header, LocalAssignmentUnavailable)
      else (header.(admitted := true, members := [Brief(mine.value)] + Others(r.members, local)), MembershipOk)
  }
}
