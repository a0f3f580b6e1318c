/** A roster and the configuration it was made from give every node of the group the same membership. */
module MembershipAgreement {
  import opened Wrappers
  import opened SiteConfiguration
  import opened GroupRoster
  import opened RosterCanon
  import opened GroupMembership

  function Briefs(s: seq<Member>): (b: seq<GroupMember>)
    ensures |b| == |s|
  {
    if s == [] then [] else Briefs(s[..|s| - 1]) + [Brief(s[|s| - 1])]
  }

  // Unused member slots are blank.
  predicate BlankSlots(members: seq<Member>) {
    forall m | m in members :: m.occupied || m == BLANK_MEMBER
  }

  // The two ways of telling who is in the group agree.
  predicate SameCriterion(members: seq<Member>, groupId: string) {
    forall m | m in members :: ValidAssignment(m) && m.profile.groupId == groupId <==> Belongs(m, groupId)
  }

  lemma {:induction false} AssignedIsChosen(members: seq<Member>, groupId: string)
    requires SameCriterion(members, groupId)
    ensures Assigned(members, groupId) == Briefs(Chosen(members, groupId))
  {
    if members != [] {
      var n := |members| - 1;
      var m := members[n];
      assert m in members && members == members[..n] + [m];
      assert forall x | x in members[..n] :: x in members;
      AssignedIsChosen(members[..n], groupId);
      ChosenConcat(members[..n], [m], groupId);
      hide ValidAssignment, Belongs;
      var before := Chosen(members[..n], groupId);
      assert [m][1..] == [] && Chosen([m], groupId) == if Belongs(m, groupId) then [Normalized(m)] else [];
      if Belongs(m, groupId) {
        assert (before + [Normalized(m)])[..|before|] == before;
      } else {
        assert before + [] == before;
      }
    }
  }

  lemma {:induction false} ChosenHas(members: seq<Member>, groupId: string, m: Member)
    ensures m in members && Belongs(m, groupId) ==> Normalized(m) in Chosen(members, groupId)
  {
    if members != [] {
      ChosenHas(members[1..], groupId, m);
      assert m in members ==> m == members[0] || m in members[1..];
    }
  }

  lemma {:induction false} ChosenFrom(members: seq<Member>, groupId: string, x: Member) returns (m: Member)
    requires x in Chosen(members, groupId)
    ensures m in members && Belongs(m, groupId) && x == Normalized(m)
  {
    if Belongs(members[0], groupId) && x == Normalized(members[0]) {
      m := members[0];
    } else {
      m := ChosenFrom(members[1..], groupId, x);
    }
  }

  lemma {:induction false} BriefsConcat(a: seq<Member>, b: seq<Member>)
    ensures Briefs(a + b) == Briefs(a) + Briefs(b)
  {
    if b == [] {
      assert a + b == a;
    } else {
      var n := |b| - 1;
      assert (a + b)[..|a + b| - 1] == a + b[..n];
      BriefsConcat(a, b[..n]);
    }
  }

  lemma BriefsOne(m: Member)
    ensures Briefs([m]) == [Brief(m)]
  {
  }

  lemma {:induction false} BriefsPermute(a: seq<Member>, b: seq<Member>)
    requires multiset(a) == multiset(b)
    ensures multiset(Briefs(a)) == multiset(Briefs(b))
    decreases |a|
  {
    SameSize(a, b);
    if a != [] {
      assert a[0] in b;
      var k :| 0 <= k < |b| && b[k] == a[0];
      TakeOut(b, k);
      assert a == [a[0]] + a[1..];
      var rest := b[..k] + b[k + 1..];
      Cancel(a[0], multiset(a[1..]), multiset(rest));
      BriefsPermute(a[1..], rest);
      hide Briefs;
      BriefsOne(a[0]);
      BriefsConcat([a[0]], a[1..]);
      BriefsConcat(b[..k], [b[k]] + b[k + 1..]);
      BriefsConcat([b[k]], b[k + 1..]);
      BriefsConcat(b[..k], b[k + 1..]);
    }
  }

  lemma {:induction false} OthersBlanks(s: seq<Member>, local: string, n: nat)
    ensures Others(s + Blanks(n), local) == Others(s, local)
  {
    if n == 0 {
      assert s + Blanks(n) == s;
    } else {
      assert (s + Blanks(n))[..|s| + n - 1] == s + Blanks(n - 1);
      OthersBlanks(s, local, n - 1);
    }
  }

  lemma {:induction false} OccupiedSplit(a: seq<Member>, b: seq<Member>)
    ensures Occupied(a + b) == Occupied(a) + Occupied(b)
  {
    if a == [] {
      assert a + b == b;
    } else {
      assert (a + b)[1..] == a[1..] + b;
      OccupiedSplit(a[1..], b);
    }
  }

  lemma {:induction false} OccupiedCounts(s: seq<Member>, n: nat)
    requires forall x | x in s :: x.occupied
    ensures Occupied(s) == |s| && Occupied(Blanks(n)) == 0
    decreases |s| + n
  {
    if s != [] {
      OccupiedCounts(s[1..], n);
    } else if n > 0 {
      assert Blanks(n)[1..] == Blanks(n - 1);
      OccupiedCounts(s, n - 1);
    }
  }

  lemma {:induction false} OthersAreAll(s: seq<Member>, local: string)
    requires forall m | m in s :: m.occupied && m.id != local
    ensures Others(s, local) == Briefs(s)
  {
    if s != [] {
      assert s[|s| - 1] in s;
      OthersAreAll(s[..|s| - 1], local);
    }
  }

  lemma LastOther(s: seq<Member>, local: string)
    requires s != [] && s[|s| - 1].occupied && s[|s| - 1].id != local
    ensures var n := |s| - 1;
            Others(s, local) == Others(s[..n], local) + [Brief(s[n])] && Briefs(s) == Briefs(s[..n]) + [Brief(s[n])]
  {
  }

  lemma {:induction false} OthersOf(s: seq<Member>, k: nat)
    requires k < |s| && DistinctIds(s) && forall m | m in s :: m.occupied
    ensures multiset([Brief(s[k])] + Others(s, s[k].id)) == multiset(Briefs(s))
  {
    var n := |s| - 1;
    var front, x := s[..n], s[k];
    assert s[n] in s;
    if k < n {
      OthersOf(front, k);
      assert s[n].id != x.id;
      var o, b := Others(front, x.id), Briefs(front);
      LastOther(s, x.id);
      hide Others, Briefs, DistinctIds;
      assert [Brief(x)] + (o + [Brief(s[n])]) == ([Brief(x)] + o) + [Brief(s[n])];
    } else {
      OthersAreAll(front, x.id);
      assert Others(s, x.id) == Briefs(front);
    }
  }

  lemma CriterionHolds(c: Configuration, groupId: string, leaderId: string)
    requires BlankSlots(c.members) && PrepareRoster(c, groupId, leaderId).1 == RosterOk
    ensures SameCriterion(c.members, groupId)
  {
    PreparedFromChosen(c, groupId, leaderId);
    var chosen := Chosen(c.members, groupId);
    var roster := Assemble(c, groupId, leaderId, chosen);
    assert groupId != "";
    forall m | m in c.members
      ensures ValidAssignment(m) && m.profile.groupId == groupId <==> Belongs(m, groupId)
    {
      if Belongs(m, groupId) {
        ChosenHas(c.members, groupId, m);
        InRoster(roster, chosen, Normalized(m));
      }
      hide ValidRoster, Assemble, Chosen, PrepareRoster;
    }
  }

  // Every collected member passes the roster's own checks.
  lemma InRoster(roster: Roster, chosen: seq<Member>, x: Member)
    requires ValidRoster(roster) && |chosen| <= |roster.members| && roster.members[..|chosen|] == SortById(chosen)
    requires x in chosen && x.occupied
    ensures x.kind == NamoNode && x.profile.spaceId == roster.spaceId != ""
  {
    var sorted := SortById(chosen);
    SameSize(sorted, chosen);
    var k :| 0 <= k < |sorted| && sorted[k] == x;
    hide SortById, UniqueIds, Occupied;
    assert roster.members[k] == roster.members[..|chosen|][k] == x;
  }

  predicate Agree(direct: (MembershipView, MembershipResult), roster: (MembershipView, MembershipResult)) {
    && direct.1 == roster.1 == MembershipOk
    && roster.0 == direct.0.(members := roster.0.members)
    && multiset(roster.0.members) == multiset(direct.0.members)
  }

  lemma LocalMember(c: Configuration, groupId: string, roster: Roster, chosen: seq<Member>, local: string) returns (m: Member)
    requires UniqueIds(c.members) && chosen == Chosen(c.members, groupId) && |chosen| <= |roster.members|
    requires roster.members[..|chosen|] == SortById(chosen) && roster.members[|chosen|..] == Blanks(|roster.members| - |chosen|)
    requires FindInRoster(roster, local).Some?
    ensures local != "" && m.id == local && m in c.members && Belongs(m, groupId) && FindMember(c.members, local) == Some(m)
    ensures Normalized(m) in chosen && FindInRoster(roster, local) == Some(Normalized(m))
  {
    var x := FindInRoster(roster, local).value;
    SameSize(SortById(chosen), chosen);
    hide SortById, Chosen;
    var k :| 0 <= k < |roster.members| && roster.members[k] == x;
    assert SortById(chosen)[k] == roster.members[..|chosen|][k] == x;
    assert x in chosen;
    m := ChosenFrom(c.members, groupId, x);
    FoundIsMember(c.members, m);
  }

  lemma ViewsAgree(c: Configuration, groupId: string, roster: Roster, chosen: seq<Member>, local: string, m: Member)
    requires c.rosterCommitted && c.floorplan.committed && local != "" && ValidRoster(roster)
    requires chosen == Chosen(c.members, groupId) && |chosen| <= MAX_GROUP
    requires Assigned(c.members, groupId) == Briefs(chosen)
    requires FindMember(c.members, local) == Some(m) && ValidAssignment(m) && m.profile.groupId == groupId == roster.groupId
    requires m.profile.spaceId == roster.spaceId && roster.floorplan == c.floorplan && roster.revision == c.rosterRevision
    requires FindInRoster(roster, local) == Some(Normalized(m)) && Occupied(roster.members) == |chosen|
    requires multiset([Brief(m)] + Others(roster.members, local)) == multiset(Briefs(chosen))
    ensures Agree(DirectView(Some(c), local), RosterView(Some(roster), local))
  {
    hide ValidRoster, ValidAssignment, Others, Assigned, Briefs, Chosen, Occupied, FindInRoster, FindMember;
    var all := Briefs(chosen);
    assert all[..AtMost(|all|, MAX_GROUP)] == all;
    assert ([Brief(m)] + Others(roster.members, local))[0] == Brief(m);
    assert Brief(m) in multiset(all);
    assert Brief(m) in all;
    var k :| 0 <= k < |all| && all[k] == Brief(m);
    IsMemberId(c.members, local, m);
    assert all[k].id == local;
    assert Lists(all, local);
  }

  lemma IsMemberId(members: seq<Member>, local: string, m: Member)
    requires FindMember(members, local) == Some(m)
    ensures m.id == local
  {
  }

  // Main result: for every node in a prepared roster, the membership from the roster has the same
  // members, eligibility, counts, scope and revision as the one from the configuration.
  lemma RosterAgrees(c: Configuration, groupId: string, leaderId: string, local: string)
    requires UniqueIds(c.members) && BlankSlots(c.members) && PrepareRoster(c, groupId, leaderId).1 == RosterOk
    requires FindInRoster(PrepareRoster(c, groupId, leaderId).0, local).Some?
    ensures Agree(DirectView(Some(c), local), RosterView(Some(PrepareRoster(c, groupId, leaderId).0), local))
  {
    PreparedFromChosen(c, groupId, leaderId);
    var chosen := Chosen(c.members, groupId);
    var roster := Assemble(c, groupId, leaderId, chosen);
    CriterionHolds(c, groupId, leaderId);
    AssignedIsChosen(c.members, groupId);
    RosterIdsDistinct(c, groupId, leaderId, chosen);
    RosterShape(c, groupId, leaderId, chosen);
    var m := LocalMember(c, groupId, roster, chosen, local);
    hide PrepareRoster, Assemble, ValidRoster, Chosen, SortById, Assigned, Briefs, Others, FindInRoster, Occupied, DistinctIds, SameCriterion;
    InRoster(roster, chosen, Normalized(m));
    assert ValidAssignment(m) by { assert m in c.members; CriterionAt(c.members, groupId, m); }
    RosterOthers(roster, chosen, local, m);
    ViewsAgree(c, groupId, roster, chosen, local, m);
  }

  lemma CriterionAt(members: seq<Member>, groupId: string, m: Member)
    requires SameCriterion(members, groupId) && m in members && Belongs(m, groupId)
    ensures ValidAssignment(m)
  {
  }

  lemma RosterShape(c: Configuration, groupId: string, leaderId: string, chosen: seq<Member>)
    requires c.rosterCommitted && chosen != [] && |chosen| <= MAX_GROUP
    ensures var r := Assemble(c, groupId, leaderId, chosen);
            && |r.members| == MAX_GROUP && r.members[..|chosen|] == SortById(chosen)
            && r.members[|chosen|..] == Blanks(|r.members| - |chosen|)
            && r.groupId == groupId && r.floorplan == c.floorplan && r.revision == c.rosterRevision
  {
  }

  lemma RosterOthers(roster: Roster, chosen: seq<Member>, local: string, m: Member)
    requires |chosen| <= |roster.members| && roster.members[..|chosen|] == SortById(chosen)
    requires roster.members[|chosen|..] == Blanks(|roster.members| - |chosen|)
    requires DistinctIds(SortById(chosen)) && Normalized(m) in chosen && m.id == local && forall x | x in chosen :: x.occupied
    ensures Occupied(roster.members) == |chosen|
    ensures multiset([Brief(m)] + Others(roster.members, local)) == multiset(Briefs(chosen))
  {
    var sorted, n := SortById(chosen), |roster.members| - |chosen|;
    SameSize(sorted, chosen);
    assert roster.members == sorted + Blanks(n);
    hide SortById, DistinctIds, Others, Briefs, Occupied;
    OccupiedSplit(sorted, Blanks(n));
    OccupiedCounts(sorted, n);
    OthersBlanks(sorted, local, n);
    var k :| 0 <= k < |sorted| && sorted[k] == Normalized(m);
    OthersOf(sorted, k);
    BriefsPermute(sorted, chosen);
    assert Brief(Normalized(m)) == Brief(m);
  }
}
