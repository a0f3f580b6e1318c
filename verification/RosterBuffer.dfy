/** Preparing a roster in place: its member array is filled and then sorted. */
module RosterBuffer {
  import opened Wrappers
  import opened Bytes
  import opened SiteConfiguration
  import opened GroupRoster

  lemma SwapDown(s: seq<Member>, before: seq<Member>, j: nat, m: Member, moved: seq<Member>, after: seq<Member>)
    requires 0 < j <= |before| && s == before[..j] + ([m] + (moved + after))
    ensures s[j - 1] == before[j - 1] && s[j] == m
    ensures s[j := before[j - 1]][j - 1 := m] == before[..j - 1] + ([m] + (([before[j - 1]] + moved) + after))
  {
  }

  lemma InsertStep(before: seq<Member>, j: nat, m: Member, moved: seq<Member>)
    requires 0 < j <= |before| && Less(m.id, before[j - 1].id)
    ensures Insert(before[..j], m) + moved == Insert(before[..j - 1], m) + ([before[j - 1]] + moved)
  {
    assert before[..j][..j - 1] == before[..j - 1];
  }

  lemma Settled(before: seq<Member>, m: Member, s: seq<Member>, j: nat)
    requires j == |before| < |s| && s[..j] == before && (j == 0 || !Less(m.id, s[j - 1].id))
    ensures Insert(before, m) == before + [m]
  {
    if j > 0 { assert before[j - 1] == s[j - 1]; }
  }

  lemma SortStep(was: seq<Member>, i: nat)
    requires i < |was|
    ensures SortById(was[..i + 1]) == Insert(SortById(was[..i]), was[i])
  {
    assert was[..i + 1][..i] == was[..i];
  }

  lemma CutAt(s: seq<Member>, a: seq<Member>, b: seq<Member>)
    requires s == a + b && b != []
    ensures s[..|a|] == a && s[|a|] == b[0] && s[|a| + 1..] == b[1..]
  {
  }

  class Buffer {
    var siteId: string
    var groupId: string
    var spaceId: string
    var leaderId: string
    var generation: U32
    var revision: U32
    var committed: bool
    var floorplan: Floorplan
    const members: array<Member>

    ghost predicate Valid() {
      members.Length == MAX_GROUP
    }

    function View(): Roster
      reads this, members
    {
      Roster(siteId, groupId, spaceId, leaderId, generation, revision, committed, floorplan, members[..])
    }

    constructor ()
      ensures Valid() && View() == NO_ROSTER && fresh(members)
    {
      members := new Member[MAX_GROUP](_ => BLANK_MEMBER);
      siteId, groupId, spaceId, leaderId, generation, revision := "", "", "", "", 0, 0;
      committed, floorplan := false, NO_FLOORPLAN;
      new;
      assert members[..] == Blanks(MAX_GROUP);
    }

    method Clear()
      requires Valid()
      modifies this, members
      ensures View() == NO_ROSTER
    {
      siteId, groupId, spaceId, leaderId := "", "", "", "";
      generation, revision, committed, floorplan := 0, 0, false, NO_FLOORPLAN;
      for i := 0 to members.Length
        modifies members
        invariant forall j | 0 <= j < i :: members[j] == BLANK_MEMBER
      {
        members[i] := BLANK_MEMBER;
      }
      assert members[..] == Blanks(MAX_GROUP);
    }

    // Moves the last of the first `count` members to its place among the sorted ones before it.
    method Sink(count: nat)
      requires Valid() && 0 < count <= members.Length
      modifies members
      ensures members[..] == Insert(old(members[..count - 1]), old(members[count - 1])) + old(members[count..])
    {
      hide Less, Insert;
      var j := count - 1;
      var m := members[j];
      ghost var before, after, moved := members[..count - 1], members[count..], [];
      ghost var goal := Insert(before, m);
      assert before[..j] == before && members[..] == before + ([m] + (moved + after));
      while j > 0 && Less(m.id, members[j - 1].id)
        invariant j <= |before| < members.Length
        invariant members[..] == before[..j] + ([m] + (moved + after))
        invariant Insert(before[..j], m) + moved == goal
      {
        SwapDown(members[..], before, j, m, moved, after);
        InsertStep(before, j, m, moved);
        moved := [before[j - 1]] + moved;
        members[j] := members[j - 1];
        members[j - 1] := m;
        j := j - 1;
      }
      assert before[..j] + [m] == Insert(before[..j], m) by { Settled(before[..j], m, members[..], j); }
      assert members[..] == (before[..j] + [m] + moved) + after;
    }

    method Sort(count: nat)
      requires Valid() && count <= members.Length
      modifies members
      ensures members[..] == SortById(old(members[..count])) + old(members[count..])
    {
      hide Insert;
      ghost var was := members[..];
      assert was[..0] == [] && SortById([]) == [];
      for i := 0 to count
        invariant members[..] == SortById(was[..i]) + was[i..]
      {
        SortStep(was, i);
        CutAt(members[..], SortById(was[..i]), was[i..]);
        assert was[i..][1..] == was[i + 1..];
        assert members[i + 1..] == members[..][i + 1..];
        Sink(i + 1);
      }
    }

    // Copies the group's members to the front of the array.
    method Gather(c: Configuration, group: string) returns (count: nat, r: RosterResult)
      requires Valid() && members[..] == Blanks(MAX_GROUP)
      modifies this`spaceId, members
      ensures r == Collect(c.members, group, []).1
      ensures r == RosterOk ==>
                var chosen := Collect(c.members, group, []).0;
                && count == |chosen| <= MAX_GROUP && members[..] == chosen + Blanks(MAX_GROUP - count)
                && (chosen != [] ==> spaceId == chosen[0].profile.spaceId) && (chosen == [] ==> spaceId == old(spaceId))
    {
      count := 0;
      ghost var goal := Collect(c.members, group, []);
      for i := 0 to |c.members|
        invariant count <= MAX_GROUP && members[count..] == Blanks(MAX_GROUP - count)
        invariant Collect(c.members[i..], group, members[..count]) == goal
        invariant if count == 0 then spaceId == old(spaceId) else spaceId == members[0].profile.spaceId
      {
        var m := c.members[i];
        ghost var chosen := members[..count];
        assert c.members[i..][1..] == c.members[i + 1..];
        if !Belongs(m, group) { continue; }
        if count >= members.Length { return count, GroupFull; }
        if count == 0 {
          spaceId := m.profile.spaceId;
        } else if spaceId != m.profile.spaceId {
          return count, InvalidRoster;
        }
        members[count] := Normalized(m);
        count := count + 1;
        assert members[..count] == chosen + [Normalized(m)];
      }
      r := RosterOk;
    }

    method Prepare(c: Configuration, group: string, leader: string) returns (r: RosterResult)
      requires Valid()
      modifies this, members
      ensures r == PrepareRoster(c, group, leader).1
      ensures View() == if r == InvalidArgument then old(View()) else PrepareRoster(c, group, leader).0
    {
      hide Collect, SortById, ValidRoster, FindInRoster;
      if group == "" || leader == "" || !c.rosterCommitted || !c.floorplan.committed { return InvalidArgument; }
      Clear();
      siteId, groupId, leaderId, revision := c.siteId, group, leader, c.rosterRevision;
      committed, floorplan := true, c.floorplan;
      var count;
      count, r := Gather(c, group);
      if r == RosterOk && count == 0 {
        r := GroupNotFound;
      }
      if r == RosterOk {
        ghost var chosen := Collect(c.members, group, []).0;
        Sort(count);
        assert View() == Assemble(c, group, leader, chosen);
        if FindInRoster(View(), leader).None? {
          r := LeaderNotFound;
        } else if !ValidRoster(View()) {
          r := InvalidRoster;
        }
      }
      if r != RosterOk { Clear(); }
    }
  }
}
