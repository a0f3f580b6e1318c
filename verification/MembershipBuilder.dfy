/** Building a membership view in place. */
module MembershipBuilder {
  import opened Wrappers
  import opened Bytes
  import opened SiteConfiguration
  import opened GroupRoster
  import opened GroupMembership

  const NOBODY := GroupMember("", false)

  class Builder {
    var valid: bool
    var admitted: bool
    var overCapacity: bool
    var groupId: string
    var spaceId: string
    var floorplanId: string
    var revision: U32
    var configured: Byte
    var count: nat
    const members: array<GroupMember>

    ghost predicate Valid()
      reads this
    {
      members.Length == MAX_GROUP && count <= MAX_GROUP
    }

    function View(): MembershipView
      requires count <= members.Length
      reads this, members
    {
      MembershipView(valid, admitted, overCapacity, groupId, spaceId, floorplanId, revision, configured, members[..count])
    }

    constructor ()
      ensures Valid() && View() == NO_VIEW && fresh(members)
    {
      members := new GroupMember[MAX_GROUP](_ => NOBODY);
      valid, admitted, overCapacity, groupId, spaceId, floorplanId := false, false, false, "", "", "";
      revision, configured, count := 0, 0, 0;
    }

    method Clear()
      requires Valid()
      modifies this
      ensures Valid() && View() == NO_VIEW
    {
      valid, admitted, overCapacity, groupId, spaceId, floorplanId := false, false, false, "", "", "";
      revision, configured, count := 0, 0, 0;
    }

    method Holds(id: string) returns (found: bool)
      requires Valid() && valid && id != ""
      ensures found == Lists(members[..count], id)
    {
      for i := 0 to count
        invariant forall j | 0 <= j < i :: members[j].id != id
      {
        if members[i].id == id {
          assert members[..count][i].id == id;
          return true;
        }
      }
      found := false;
    }

    method CountAssigned(c: Configuration)
      requires Valid() && configured == 0
      modifies this`configured
      ensures configured == AtMost(|Assigned(c.members, groupId)|, 255)
    {
      for i := 0 to |c.members|
        invariant configured == AtMost(|Assigned(c.members[..i], groupId)|, 255)
      {
        assert c.members[..i + 1][..i] == c.members[..i];
        if ValidAssignment(c.members[i]) && c.members[i].profile.groupId == groupId && configured != 255 {
          configured := configured + 1;
        }
      }
      assert c.members[..|c.members|] == c.members;
    }

    method Append(m: GroupMember)
      requires Valid() && count < MAX_GROUP
      modifies this`count, members
      ensures Valid() && count == old(count) + 1 && members[..count] == old(members[..count]) + [m]
    {
      members[count] := m;
      count := count + 1;
    }

    method Select(c: Configuration)
      requires Valid() && count == 0 && !overCapacity
      modifies this`count, this`overCapacity, members
      ensures var all := Assigned(c.members, groupId);
              && Valid() && overCapacity == (|all| > MAX_GROUP) && members[..count] == all[..AtMost(|all|, MAX_GROUP)]
    {
      for i := 0 to |c.members|
        invariant Valid()
        invariant var all := Assigned(c.members[..i], groupId);
                  overCapacity == (|all| > MAX_GROUP) && members[..count] == all[..AtMost(|all|, MAX_GROUP)]
      {
        ghost var all := Assigned(c.members[..i], groupId);
        var m := c.members[i];
        assert c.members[..i + 1][..i] == c.members[..i];
        if !ValidAssignment(m) || m.profile.groupId != groupId { continue; }
        assert Assigned(c.members[..i + 1], groupId) == all + [Brief(m)];
        if count >= members.Length {
          overCapacity := true;
          assert (all + [Brief(m)])[..MAX_GROUP] == all[..MAX_GROUP];
          continue;
        }
        Append(GroupMember(m.id, m.kind == NamoNode && m.leaderEligible));
      }
      assert c.members[..|c.members|] == c.members;
    }

    method FromConfiguration(c: Option<Configuration>, local: string) returns (r: MembershipResult)
      requires Valid()
      modifies this, members
      ensures Valid() && r == DirectView(c, local).1
      ensures View() == if r == BadArgument then old(View()) else DirectView(c, local).0
    {
      hide ValidAssignment, Assigned, Lists;
      if local == "" { return BadArgument; }
      Clear();
      if c.None? || !c.value.rosterCommitted { return ConfigurationUnavailable; }
      var mine := FindMember(c.value.members, local);
      if mine.None? || !ValidAssignment(mine.value) { return LocalAssignmentUnavailable; }
      valid, groupId, spaceId := true, mine.value.profile.groupId, mine.value.profile.spaceId;
      if c.value.floorplan.committed {
        floorplanId := c.value.floorplan.id;
      }
      revision := c.value.rosterRevision;
      CountAssigned(c.value);
      Select(c.value);
      admitted := Holds(local);
      r := if admitted then MembershipOk else LocalNotAdmitted;
    }

    method SelectOthers(all: seq<Member>, local: string)
      requires Valid() && count == 1 && |Others(all, local)| < MAX_GROUP
      modifies this`count, members
      ensures Valid() && members[..count] == [old(members[0])] + Others(all, local)
    {
      ghost var first := members[0];
      for i := 0 to |all|
        invariant Valid() && members[..count] == [first] + Others(all[..i], local)
      {
        assert all[..i + 1][..i] == all[..i];
        var m := all[i];
        if !m.occupied || m.id == local { continue; }
        assert Others(all[..i + 1], local) == Others(all[..i], local) + [Brief(m)];
        OthersGrow(all, local, i + 1);
        Append(Brief(m));
      }
      assert all[..|all|] == all;
    }

    method FromRoster(roster: Option<Roster>, local: string) returns (r: MembershipResult)
      requires Valid() && (roster.Some? ==> |roster.value.members| == MAX_GROUP)
      modifies this, members
      ensures Valid() && r == RosterView(roster, local).1
      ensures View() == if r == BadArgument then old(View()) else RosterView(roster, local).0
    {
      hide ValidRoster, Occupied, Others;
      if local == "" { return BadArgument; }
      Clear();
      if roster.None? || !ValidRoster(roster.value) { return ConfigurationUnavailable; }
      var all := roster.value.members;
      OccupiedFits(roster.value);
      valid, groupId, spaceId, floorplanId := true, roster.value.groupId, roster.value.spaceId, roster.value.floorplan.id;
      revision, configured := roster.value.revision, Occupied(all);
      var mine := FindInRoster(roster.value, local);
      if mine.None? { return LocalAssignmentUnavailable; }
      SelectAll(all, mine.value, local);
      r := if admitted then MembershipOk else LocalNotAdmitted;
    }

    // The local node first, then the others.
    method SelectAll(all: seq<Member>, mine: Member, local: string)
      requires Valid() && valid && local != "" && FindMember(all, local) == Some(mine) && |all| == MAX_GROUP
      modifies this`count, this`admitted, members
      ensures Valid() && admitted && members[..count] == [Brief(mine)] + Others(all, local)
    {
      hide Others, Lists;
      members[0] := Brief(mine);
      count := 1;
      OthersFit(all, local);
      SelectOthers(all, local);
      admitted := Holds(local);
      assert members[..count][0].id == local;
      AdmittedFirst(members[..count], local);
    }
  }

  lemma OccupiedFits(r: Roster)
    requires ValidRoster(r)
    ensures Occupied(r.members) <= MAX_GROUP
  {
  }

  lemma AdmittedFirst(s: seq<GroupMember>, local: string)
    requires s != [] && s[0].id == local
    ensures Lists(s, local)
  {
  }

  lemma {:induction false} OthersGrow(all: seq<Member>, local: string, i: nat)
    requires i <= |all|
    ensures |Others(all[..i], local)| <= |Others(all, local)|
    decreases |all|
  {
    if i == |all| {
      assert all[..i] == all;
    } else {
      OthersGrow(all[..|all| - 1], local, i);
      assert all[..|all| - 1][..i] == all[..i];
    }
  }

  // The local node's own slot leaves room for the others.
  lemma {:induction false} OthersFit(all: seq<Member>, local: string)
    requires FindMember(all, local).Some?
    ensures |Others(all, local)| < |all|
  {
    var n, slot := |all| - 1, SlotOf(all, local);
    if slot < n {
      assert IsMember(all[..n][slot], local);
      assert FindMember(all[..n], local).Some?;
      OthersFit(all[..n], local);
    }
  }
}
