/** A roster does not depend on which slots its members occupy in the site configuration. */
module RosterCanon {
  import opened Wrappers
  import opened SiteConfiguration
  import opened GroupRoster

  // The group's members in slot order, normalized.
  function Chosen(members: seq<Member>, groupId: string): (s: seq<Member>)
    ensures forall i | 0 <= i < |s| :: s[i].occupied
  {
    if members == [] then []
    else (if Belongs(members[0], groupId) then [Normalized(members[0])] else []) + Chosen(members[1..], groupId)
  }

  predicate OneSpace(s: seq<Member>) {
    forall x, y | x in s && y in s :: x.profile.spaceId == y.profile.spaceId
  }

  predicate Fits(s: seq<Member>) {
    |s| <= MAX_GROUP && OneSpace(s)
  }

  // Collecting succeeds just when the group fits and lies in one space, and then gives its members.
  lemma {:induction false} CollectIsChosen(members: seq<Member>, groupId: string, acc: seq<Member>)
    requires Fits(acc)
    ensures var all := acc + Chosen(members, groupId);
            && (Collect(members, groupId, acc).1 == RosterOk <==> Fits(all))
            && (Fits(all) ==> Collect(members, groupId, acc).0 == all)
    decreases |members|
  {
    hide Belongs, Normalized, Fits;
    if members == [] {
      assert acc + Chosen(members, groupId) == acc;
    } else if !Belongs(members[0], groupId) {
      assert Chosen(members, groupId) == Chosen(members[1..], groupId);
      CollectIsChosen(members[1..], groupId, acc);
    } else {
      var m := Normalized(members[0]);
      var rest := Chosen(members[1..], groupId);
      assert acc + Chosen(members, groupId) == acc + [m] + rest;
      FitsGrows(acc, m, rest);
      if Fits(acc + [m]) {
        CollectIsChosen(members[1..], groupId, acc + [m]);
      }
    }
  }

  lemma FitsGrows(acc: seq<Member>, m: Member, rest: seq<Member>)
    requires Fits(acc)
    ensures Fits(acc + [m]) <==> |acc| < MAX_GROUP && (acc == [] || acc[0].profile.spaceId == m.profile.spaceId)
    ensures Fits(acc + [m] + rest) ==> Fits(acc + [m])
  {
    if acc != [] {
      assert acc[0] in acc + [m] && m in acc + [m];
    }
    assert forall x | x in acc + [m] :: x in acc + [m] + rest;
  }

  lemma {:induction false} ChosenConcat(a: seq<Member>, b: seq<Member>, groupId: string)
    ensures Chosen(a + b, groupId) == Chosen(a, groupId) + Chosen(b, groupId)
  {
    if a == [] {
      assert a + b == b;
    } else {
      assert (a + b)[1..] == a[1..] + b && (a + b)[0] == a[0];
      ChosenConcat(a[1..], b, groupId);
    }
  }

  lemma Cancel<T>(x: T, a: multiset<T>, b: multiset<T>)
    requires multiset{x} + a == multiset{x} + b
    ensures a == b
  {
    assert a == (multiset{x} + a) - multiset{x};
    assert b == (multiset{x} + b) - multiset{x};
  }

  lemma TakeOut<T>(s: seq<T>, k: nat)
    requires k < |s|
    ensures s == s[..k] + ([s[k]] + s[k + 1..])
    ensures multiset(s) == multiset{s[k]} + multiset(s[..k] + s[k + 1..])
  {
    assert s == s[..k] + ([s[k]] + s[k + 1..]);
  }

  lemma {:induction false} ChosenPermutes(a: seq<Member>, b: seq<Member>, groupId: string)
    requires multiset(a) == multiset(b)
    ensures multiset(Chosen(a, groupId)) == multiset(Chosen(b, groupId))
    decreases |a|
  {
    if a == [] {
      assert |b| == |multiset(b)| == 0;
    } else {
      assert a[0] in multiset(b);
      var k :| 0 <= k < |b| && b[k] == a[0];
      TakeOut(b, k);
      assert a == [a[0]] + a[1..];
      var rest := b[..k] + b[k + 1..];
      Cancel(a[0], multiset(a[1..]), multiset(rest));
      ChosenPermutes(a[1..], rest, groupId);
      ChosenConcat(b[..k], [b[k]] + b[k + 1..], groupId);
      ChosenConcat(b[..k], b[k + 1..], groupId);
      ChosenFront(a[0], a[1..], groupId);
      ChosenFront(b[k], b[k + 1..], groupId);
    }
  }

  lemma ChosenFront(m: Member, rest: seq<Member>, groupId: string)
    ensures Chosen([m] + rest, groupId)
         == (if Belongs(m, groupId) then [Normalized(m)] else []) + Chosen(rest, groupId)
  {
    assert ([m] + rest)[1..] == rest;
  }

  predicate Sorted(s: seq<Member>) {
    forall i, j | 0 <= i < j < |s| :: !Less(s[j].id, s[i].id)
  }

  predicate DistinctIds(s: seq<Member>) {
    forall i, j | 0 <= i < j < |s| :: s[i].id != s[j].id
  }

  lemma {:induction false} InsertSorts(s: seq<Member>, m: Member)
    requires Sorted(s)
    ensures Sorted(Insert(s, m))
  {
    hide Less;
    var n := |s| - 1;
    if s == [] {
    } else if Less(m.id, s[n].id) {
      InsertSorts(s[..n], m);
      LessStrict(m.id, s[n].id);
      var t := Insert(s[..n], m);
      forall i | 0 <= i < |t| ensures !Less(s[n].id, t[i].id) {
        assert t[i] in multiset(t);
        assert t[i] == m || t[i] in s[..n];
      }
    } else {
      forall i | 0 <= i < n ensures !Less(m.id, s[i].id) {
        if Less(m.id, s[i].id) { Between(m.id, s[i].id, s[n].id); }
      }
    }
  }

  lemma Between(a: string, b: string, c: string)
    requires Less(a, b) && !Less(c, b)
    ensures Less(a, c)
  {
    LessTotal(b, c);
    if Less(b, c) { LessTransitive(a, b, c); }
  }

  lemma {:induction false} SortSorts(s: seq<Member>)
    ensures Sorted(SortById(s))
  {
    if s != [] {
      SortSorts(s[..|s| - 1]);
      InsertSorts(SortById(s[..|s| - 1]), s[|s| - 1]);
    }
  }

  // With distinct ids there is one sorted order.
  lemma {:induction false} SortedIsUnique(a: seq<Member>, b: seq<Member>)
    requires Sorted(a) && Sorted(b) && DistinctIds(a) && multiset(a) == multiset(b)
    ensures a == b
  {
    assert |a| == |multiset(a)| == |multiset(b)| == |b|;
    if a != [] {
      SameFirst(a, b);
      assert a == [a[0]] + a[1..] && b == [b[0]] + b[1..];
      Cancel(a[0], multiset(a[1..]), multiset(b[1..]));
      SortedIsUnique(a[1..], b[1..]);
    }
  }

  lemma SameFirst(a: seq<Member>, b: seq<Member>)
    requires Sorted(a) && Sorted(b) && DistinctIds(a) && multiset(a) == multiset(b) && a != [] && b != []
    ensures a[0] == b[0]
  {
    assert a[0] in multiset(b) && b[0] in multiset(a);
    var k :| 0 <= k < |b| && b[k] == a[0];
    var m :| 0 <= m < |a| && a[m] == b[0];
    LessTotal(a[0].id, b[0].id);
  }

  // What a successful preparation tells.
  lemma PreparedFromChosen(c: Configuration, groupId: string, leaderId: string)
    requires PrepareRoster(c, groupId, leaderId).1 == RosterOk
    ensures var chosen := Chosen(c.members, groupId);
            && chosen != [] && Fits(chosen) && Collect(c.members, groupId, []) == (chosen, RosterOk)
            && PrepareRoster(c, groupId, leaderId).0 == Assemble(c, groupId, leaderId, chosen)
            && ValidRoster(Assemble(c, groupId, leaderId, chosen))
  {
    hide Collect, Assemble, FindInRoster, ValidRoster, Chosen, Fits;
    NoMembers();
    CollectIsChosen(c.members, groupId, []);
    assert [] + Chosen(c.members, groupId) == Chosen(c.members, groupId);
  }

  lemma NoMembers()
    ensures Fits([])
  {
  }

  lemma RosterIdsDistinct(c: Configuration, groupId: string, leaderId: string, chosen: seq<Member>)
    requires ValidRoster(Assemble(c, groupId, leaderId, chosen)) && forall x | x in chosen :: x.occupied
    ensures DistinctIds(SortById(chosen))
  {
    var roster, sorted := Assemble(c, groupId, leaderId, chosen), SortById(chosen);
    SameSize(sorted, chosen);
    hide SortById, ValidRosterMember, ValidRosterHeader, IsMember;
    forall i, j | 0 <= i < j < |sorted| ensures sorted[i].id != sorted[j].id {
      assert roster.members[i] == sorted[i] && roster.members[j] == sorted[j];
      assert sorted[i] in chosen && sorted[j] in chosen;
    }
  }

  lemma OthersCollected(members: seq<Member>, others: seq<Member>, groupId: string)
    requires multiset(members) == multiset(others) && Fits(Chosen(members, groupId)) && DistinctIds(SortById(Chosen(members, groupId)))
    ensures var a, b := Chosen(members, groupId), Chosen(others, groupId);
            && Collect(others, groupId, []) == (b, RosterOk) && |a| == |b| && SortById(a) == SortById(b)
            && (a != [] ==> a[0].profile.spaceId == b[0].profile.spaceId)
  {
    ChosenPermutes(members, others, groupId);
    hide Collect, SortById, Chosen, Sorted, DistinctIds, Fits;
    var a, b := Chosen(members, groupId), Chosen(others, groupId);
    SameSize(a, b);
    SortSorts(a);
    SortSorts(b);
    SortedIsUnique(SortById(a), SortById(b));
    FitsPermutes(a, b);
    NoMembers();
    CollectIsChosen(others, groupId, []);
    assert [] + b == b;
  }

  // Main result: the slots the members occupy do not matter.
  lemma RosterIsCanonical(c: Configuration, members: seq<Member>, groupId: string, leaderId: string)
    requires multiset(members) == multiset(c.members) && PrepareRoster(c, groupId, leaderId).1 == RosterOk
    ensures PrepareRoster(c.(members := members), groupId, leaderId) == PrepareRoster(c, groupId, leaderId)
  {
    hide Collect, SortById, FindInRoster, ValidRoster, Chosen, Sorted, DistinctIds, Fits, Assemble, PrepareRoster;
    PreparedFromChosen(c, groupId, leaderId);
    var chosen, others := Chosen(c.members, groupId), Chosen(members, groupId);
    RosterIdsDistinct(c, groupId, leaderId, chosen);
    OthersCollected(c.members, members, groupId);
    SameAssembly(c, members, groupId, leaderId, chosen, others);
    FromChosen(c.(members := members), groupId, leaderId, others);
    FromChosen(c, groupId, leaderId, chosen);
  }

  // Once the members are collected, the rest of the preparation looks at the candidate only.
  lemma FromChosen(c: Configuration, groupId: string, leaderId: string, chosen: seq<Member>)
    requires Collect(c.members, groupId, []) == (chosen, RosterOk) && chosen != []
    ensures var candidate := Assemble(c, groupId, leaderId, chosen);
            PrepareRoster(c, groupId, leaderId) ==
            if groupId == "" || leaderId == "" || !c.rosterCommitted || !c.floorplan.committed then (NO_ROSTER, InvalidArgument)
            else if FindInRoster(candidate, leaderId).None? then (NO_ROSTER, LeaderNotFound)
            else if !ValidRoster(candidate) then (NO_ROSTER, InvalidRoster)
            else (candidate, RosterOk)
  {
    hide Collect, Assemble, FindInRoster, ValidRoster;
  }

  lemma FitsPermutes(a: seq<Member>, b: seq<Member>)
    requires Fits(a) && |a| == |b| && forall x :: x in a <==> x in b
    ensures Fits(b)
    ensures a != [] ==> a[0].profile.spaceId == b[0].profile.spaceId
  {
    if a != [] { assert a[0] in a && b[0] in b; }
  }

  lemma SameAssembly(c: Configuration, members: seq<Member>, groupId: string, leaderId: string, a: seq<Member>, b: seq<Member>)
    requires |a| == |b| && a != [] && SortById(a) == SortById(b) && a[0].profile.spaceId == b[0].profile.spaceId
    ensures Assemble(c.(members := members), groupId, leaderId, b) == Assemble(c, groupId, leaderId, a)
  {
  }

  lemma SameSize(a: seq<Member>, b: seq<Member>)
    requires multiset(a) == multiset(b)
    ensures |a| == |b| && forall x :: x in a <==> x in b
  {
    assert |a| == |multiset(a)| == |multiset(b)| == |b|;
    forall x ensures x in a <==> x in b {
      assert x in multiset(a) <==> x in multiset(b);
    }
  }
}
