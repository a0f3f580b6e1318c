/** Runs of the group coordinator: room for every member's heartbeat, safe leaders, rising terms. */
module CoordinatorRuns {
  import opened Wrappers
  import opened Bytes
  import opened Clock
  import opened SiteConfiguration
  import opened GroupRoster
  import opened GroupMembership
  import MembershipBuilder
  import opened LeaderRules
  import opened GroupElection
  import opened LeaderSafety
  import opened GroupCoordination

  predicate DistinctSenders(heartbeats: seq<Heartbeat>) {
    forall i, j | 0 <= i < j < |heartbeats| :: heartbeats[i].occupied && heartbeats[j].occupied ==> heartbeats[i].id != heartbeats[j].id
  }

  // Every sender kept is a member.
  predicate AllMembers(heartbeats: seq<Heartbeat>, view: MembershipView) {
    forall i | 0 <= i < |heartbeats| :: heartbeats[i].occupied ==> Contains(view, heartbeats[i].id)
  }

  predicate Inv(s: Coord, node: string) {
    && |s.heartbeats| == HEARTBEATS && DistinctSenders(s.heartbeats) && NoOwn(s.heartbeats, node)
    && |s.view.members| <= MAX_GROUP
    && (s.view.valid ==> AllMembers(s.heartbeats, s.view))
    && (s.view.valid && s.view.admitted ==> Contains(s.view, node))
    && (!s.group.occupied ==> s.group == NO_GROUP)
  }

  // A roster has room for seven members.
  predicate WellFormed(w: World) {
    w.roster.Some? ==> |w.roster.value.members| == MAX_GROUP
  }

  lemma ClearedKeeps(node: string)
    ensures Inv(CLEARED, node)
  {
  }

  lemma ViewIsBounded(w: World)
    requires WellFormed(w) && ValidName(w.node, MAX_ID)
    ensures var v := NextView(w);
            |v.members| <= MAX_GROUP && (v.valid && v.admitted ==> Contains(v, w.node))
  {
    hide Assigned, Others, ValidRoster, ValidAssignment, RosterCurrent, Occupied;
    if LiveRoster(w).Some? {
      var r := w.roster.value;
      if FindInRoster(r, w.node).Some? {
        MembershipBuilder.OthersFit(r.members, w.node);
        var v := RosterView(LiveRoster(w), w.node).0;
        if v.valid && v.admitted {
          assert v.members[0].id == w.node;
        }
      }
    }
  }

  lemma ReconcileKeeps(w: World, c: Option<Configuration>, view: MembershipView, heartbeats: seq<Heartbeat>, node: string)
    requires DistinctSenders(heartbeats) && NoOwn(heartbeats, node)
    ensures var r := Reconciled(w, c, view, heartbeats);
            DistinctSenders(r) && NoOwn(r, node) && (view.valid ==> AllMembers(r, view))
  {
    hide ActiveIn, AssignedGroup, Contains, TimeReached;
    var r := Reconciled(w, c, view, heartbeats);
    forall i | 0 <= i < |r| ensures r[i] == heartbeats[i] || r[i] == NO_HEARTBEAT {}
    forall h | h in r && h.occupied ensures h.id != node {
      var i :| 0 <= i < |r| && r[i] == h;
      assert heartbeats[i] in heartbeats;
    }
  }

  predicate SameShape(a: GroupSlot, b: GroupSlot) {
    && a.occupied == b.occupied && a.state.groupId == b.state.groupId
    && a.state.configured == b.state.configured && a.state.expected == b.state.expected
  }

  lemma LeadShape(b: Ballot, g: GroupSlot, t: Tally, winner: string, heartbeat: Option<Heartbeat>)
    ensures var r := TakeLead(b, g, t, winner, heartbeat); SameShape(r, g) && r.state.online == t.online
  {
    hide DecideTerm;
  }

  lemma ElectKeepsShape(b: Ballot)
    ensures var g := AfterElection(b); SameShape(g, b.g) && g.state.online == TallyAll(b, b.heartbeats).online
  {
    var t, ch := TallyAll(b, b.heartbeats), Elected(b);
    var g := Voted(b, t, ch);
    assert SameShape(g, b.g);
    hide TallyAll, Elected, Voted, TakeLead, Contested;
    if ch.winner.Some? {
      LeadShape(b, g, t, ch.winner.value, ch.heartbeat);
    }
  }

  lemma UpdateKeeps(s: Coord, w: World)
    requires Inv(s, w.node) && WellFormed(w)
    ensures Inv(Updated(s, w), w.node)
  {
    if ValidName(w.node, MAX_ID) {
      ViewIsBounded(w);
      ReconcileKeeps(w, Canonical(w), NextView(w), s.heartbeats, w.node);
      ScopeShape(s, w);
      var g := Scoped(s, w);
      var view, heartbeats := NextView(w), Reconciled(w, Canonical(w), NextView(w), s.heartbeats);
      ElectKeepsShape(BallotOf(w, view, heartbeats, g));
      hide NextView, Scoped, ScopeDropped, Noticed, AfterElection, BallotOf, Kept, DistinctSenders, NoOwn, AllMembers, Contains;
    }
  }

  lemma ScopeShape(s: Coord, w: World)
    requires !s.group.occupied ==> s.group == NO_GROUP
    ensures var g := Scoped(s, w); (g.occupied && g.seen) || g == NO_GROUP
  {
    hide CountsAsPeer, SelectedGroup, NextView;
    GatherShape(w, Canonical(w), NextView(w), w.participants, SelectedGroup(w, Canonical(w)), Unsee(s.group), false);
  }

  lemma {:induction false} GatherShape(w: World, c: Option<Configuration>, view: MembershipView, participants: seq<Option<Participant>>,
                                       selected: Option<string>, g: GroupSlot, found: bool)
    requires g.occupied || g == NO_GROUP
    ensures var r := GatherPeers(w, c, view, participants, selected, g, found).0; r.occupied || r == NO_GROUP
    decreases |participants|
  {
    hide AssignedGroup, MemberActive;
    if participants != [] {
      if CountsAsPeer(w, c, view, participants[0], selected) {
        var (slot, ok) := EnsureGroup(g, selected.value, true);
        GatherShape(w, c, view, participants[1..], selected,
                    if ok then slot.(seen := true, state := slot.state.(expected := slot.state.expected + 1)) else slot,
                    ok || found);
      } else {
        GatherShape(w, c, view, participants[1..], selected, g, found);
      }
    }
  }

  lemma AcceptKeeps(s: Coord, w: World, h: Beat)
    requires Inv(s, w.node) && h.id != w.node
    ensures Inv(Accepted(s, w, h).0, w.node)
  {
    hide StaleLeader, ActiveIn, AssignedGroup, Contains, ValidBeat;
    var next := Accepted(s, w, h).0;
    if next.heartbeats != s.heartbeats {
      var i := SlotFor(s.heartbeats, h.id);
      forall x | x in next.heartbeats && x.occupied ensures x.id != w.node {
        var j :| 0 <= j < |next.heartbeats| && next.heartbeats[j] == x;
        if j != i { assert s.heartbeats[j] in s.heartbeats; }
      }
    }
  }

  // ---------------------------------------------------------------- room for every member

  function Ids(members: seq<GroupMember>): (s: set<string>)
    ensures |s| <= |members|
    ensures forall i | 0 <= i < |members| :: members[i].id in s
  {
    if members == [] then {} else Ids(members[..|members| - 1]) + {members[|members| - 1].id}
  }

  // The senders of the occupied slots.
  function Senders(heartbeats: seq<Heartbeat>): (s: set<string>)
    ensures forall h | h in heartbeats && h.occupied :: h.id in s
    ensures forall id | id in s :: exists i | 0 <= i < |heartbeats| :: heartbeats[i].occupied && heartbeats[i].id == id
  {
    if heartbeats == [] then {}
    else
      var h := heartbeats[|heartbeats| - 1];
      assert forall x | x in heartbeats :: x in heartbeats[..|heartbeats| - 1] || x == h;
      Senders(heartbeats[..|heartbeats| - 1]) + if h.occupied then {h.id} else {}
  }

  // With distinct senders, the present ones are no more than the senders, and full slots hold as
  // many senders as there are slots.
  lemma {:induction false} SendersCount(b: Ballot, heartbeats: seq<Heartbeat>)
    requires DistinctSenders(heartbeats)
    ensures CountPresent(b, heartbeats) <= |Senders(heartbeats)|
    ensures (forall h | h in heartbeats :: h.occupied) ==> |Senders(heartbeats)| == |heartbeats|
  {
    if heartbeats != [] {
      var n := |heartbeats| - 1;
      SendersCount(b, heartbeats[..n]);
      hide Present;
      assert Present(b, heartbeats[n]) ==> heartbeats[n].occupied by { PresentIsOccupied(b, heartbeats[n]); }
      if heartbeats[n].occupied {
        assert heartbeats[n].id !in Senders(heartbeats[..n]);
      }
      assert heartbeats[n] in heartbeats;
    }
  }

  lemma PresentIsOccupied(b: Ballot, h: Heartbeat)
    ensures Present(b, h) ==> h.occupied
  {
  }

  lemma SendersAreMembers(s: Coord, node: string)
    requires Inv(s, node) && s.view.valid && s.view.admitted
    ensures Senders(s.heartbeats) <= Ids(s.view.members) - {node} && node in Ids(s.view.members)
  {
    forall id | id in Senders(s.heartbeats) ensures id in Ids(s.view.members) && id != node {
      var i :| 0 <= i < |s.heartbeats| && s.heartbeats[i].occupied && s.heartbeats[i].id == id;
      assert s.heartbeats[i] in s.heartbeats;
      MemberId(s.view, id);
    }
    MemberId(s.view, node);
  }

  lemma MemberId(view: MembershipView, id: string)
    requires Contains(view, id)
    ensures id in Ids(view.members)
  {
  }

  lemma SmallerSet<T>(a: set<T>, b: set<T>)
    requires a <= b
    ensures |a| <= |b|
  {
    if a != {} {
      var x :| x in a;
      SmallerSet(a - {x}, b - {x});
    }
  }

  // Main result: in a bounded group that admits this node, no member's heartbeat is turned away
  // for lack of room.
  lemma NeverFull(s: Coord, w: World, h: Beat)
    requires Inv(s, w.node) && s.view.valid && s.view.admitted && h.id != w.node
    ensures Accepted(s, w, h).1 != NoRoom
  {
    hide Accepted, BallotOf;
    if Accepted(s, w, h).1 == NoRoom {
      var b := BallotOf(w, s.view, s.heartbeats, s.group);
      SendersAreMembers(s, w.node);
      SendersCount(b, s.heartbeats);
      NoRoomMeansFull(s, w, h);
      MemberId(s.view, h.id);
      SmallerSet(Senders(s.heartbeats) + {h.id}, Ids(s.view.members) - {w.node});
    }
  }

  lemma NoRoomMeansFull(s: Coord, w: World, h: Beat)
    requires Accepted(s, w, h).1 == NoRoom && s.view.valid
    ensures Contains(s.view, h.id) && h.id !in Senders(s.heartbeats)
    ensures forall x | x in s.heartbeats :: x.occupied
  {
    hide ActiveIn, AssignedGroup, Contains, ValidBeat, StaleLeader;
  }

  // Main result: after an update no more members are online than are expected.
  lemma OnlineIsBounded(s: Coord, w: World)
    requires Inv(s, w.node) && WellFormed(w) && ValidName(w.node, MAX_ID)
    requires NextView(w).valid && NextView(w).admitted
    ensures var g := Updated(s, w).group; g.occupied && g.state.expected == |NextView(w).members| && g.state.online <= g.state.expected
  {
    var next := Updated(s, w);
    UpdateKeeps(s, w);
    var g := Scoped(s, w);
    var b := BallotOf(w, NextView(w), next.heartbeats, g);
    ElectKeepsShape(b);
    OnlineCounts(b, b.heartbeats);
    SendersCount(b, next.heartbeats);
    SendersAreMembers(next, w.node);
    SmallerSet(Senders(next.heartbeats), Ids(NextView(w).members) - {w.node});
    hide NextView, AfterElection, Canonical, LocalActive, Noticed, Kept, Senders, Ids, CountPresent, TallyAll;
  }

  // ---------------------------------------------------------------- safe leaders

  // Main result: after every update with a committed configuration and several members expected,
  // a leader is safe.
  lemma UpdateIsSafe(s: Coord, w: World)
    requires Inv(s, w.node) && WellFormed(w) && ValidName(w.node, MAX_ID) && Canonical(w).Some?
    ensures var next := Updated(s, w);
            next.group.state.configured && next.group.state.expected > 1 ==>
              Safe(BallotOf(w, next.view, next.heartbeats, Scoped(s, w)), next.group.state)
  {
    var next := Updated(s, w);
    UpdateKeeps(s, w);
    ScopeShape(s, w);
    var b := BallotOf(w, next.view, next.heartbeats, Scoped(s, w));
    ElectKeepsShape(b);
    hide Scoped, NextView, Noticed, Kept, ScopeDropped, TallyAll, Safe, Elect, IsLocalGroup, LiveRoster, NoOwn, DistinctSenders, AllMembers;
    if next.group.state.configured && next.group.state.expected > 1 {
      ElectionIsSafe(b);
      SafeOfState(b, Elect(b).state, next.group.state);
    }
  }

  lemma SafeOfState(b: Ballot, s: GroupState, t: GroupState)
    requires Safe(b, s) && s == t
    ensures Safe(b, t)
  {
  }

  // ---------------------------------------------------------------- terms and sequences

  // What one step never lowers: the term while the group stays, and each slot's sequence number
  // while the slot stays with the same boot of the same sender.
  predicate Rises(s: Coord, t: Coord) {
    && (s.group.occupied && t.group.occupied && s.group.state.groupId == t.group.state.groupId ==>
          t.group.state.term >= s.group.state.term && HoldsOrRises(s.group, t.group))
    && |t.heartbeats| == |s.heartbeats|
    && forall i | 0 <= i < |s.heartbeats| :: SlotRises(s.heartbeats[i], t.heartbeats[i])
  }

  predicate SlotRises(a: Heartbeat, b: Heartbeat) {
    a.occupied && b.occupied ==>
      b.id == a.id && (b.bootId == a.bootId ==> b == a || b.sequence > a.sequence)
  }

  lemma AcceptRises(s: Coord, w: World, h: Beat)
    ensures Rises(s, Accepted(s, w, h).0)
  {
    hide Refusal, StaleLeader;
  }

  // What an election remembers of the lead.
  predicate SameLead(a: GroupSlot, b: GroupSlot) {
    a.state.term == b.state.term && a.state.leader == b.state.leader && a.suspended == b.suspended
  }

  lemma {:induction false} GatherKeepsTerm(w: World, c: Option<Configuration>, view: MembershipView, participants: seq<Option<Participant>>,
                                           selected: Option<string>, g: GroupSlot, found: bool)
    ensures var (r, any) := GatherPeers(w, c, view, participants, selected, g, found);
            && (found ==> any)
            && (g.occupied && r.occupied && r.state.groupId == g.state.groupId ==> SameLead(r, g))
            && (g.occupied ==> r.occupied)
            && (!any ==> r == g)
            && (any && !found ==> selected.Some? && r.state.groupId == selected.value && r.seen)
            && (found && g.seen && g.occupied ==> r.state.groupId == g.state.groupId && r.seen)
    decreases |participants|
  {
    hide AssignedGroup, MemberActive;
    if participants != [] {
      if CountsAsPeer(w, c, view, participants[0], selected) {
        var (slot, ok) := EnsureGroup(g, selected.value, true);
        GatherKeepsTerm(w, c, view, participants[1..], selected,
                        if ok then slot.(seen := true, state := slot.state.(expected := slot.state.expected + 1)) else slot,
                        ok || found);
      } else {
        GatherKeepsTerm(w, c, view, participants[1..], selected, g, found);
      }
    }
  }

  lemma ScopeKeepsTerm(s: Coord, w: World)
    requires s.group.occupied
    ensures var g := Scoped(s, w);
            g.occupied && g.state.groupId == s.group.state.groupId ==> SameLead(g, s.group)
  {
    hide CountsAsPeer, SelectedGroup, NextView;
    GatherKeepsTerm(w, Canonical(w), NextView(w), w.participants, SelectedGroup(w, Canonical(w)), Unsee(s.group), false);
  }

  lemma UpdateRises(s: Coord, w: World)
    ensures Rises(s, Updated(s, w))
  {
    if ValidName(w.node, MAX_ID) {
      var next := Updated(s, w);
      forall i | 0 <= i < |s.heartbeats| ensures SlotRises(s.heartbeats[i], next.heartbeats[i]) {
        hide Lapsed;
      }
      if s.group.occupied {
        ScopeKeepsTerm(s, w);
        var b := BallotOf(w, next.view, next.heartbeats, Scoped(s, w));
        ElectKeepsShape(b);
        ElectionKeepsTerm(b);
        ElectionHoldsOrRises(b);
        hide Scoped, NextView, Noticed, Kept, ScopeDropped, Elect, SlotRises;
      }
    }
  }

  // ---------------------------------------------------------------- runs

  datatype Event = UpdateEvent(w: World) | BeatEvent(w: World, h: Beat) | ClearEvent

  function Apply(s: Coord, e: Event): Coord {
    match e
    case UpdateEvent(w) => Updated(s, w)
    case BeatEvent(w, h) => Accepted(s, w, h).0
    case ClearEvent => CLEARED
  }

  // The node keeps its identity and hears only others.
  predicate Fair(e: Event, node: string) {
    !e.ClearEvent? ==> e.w.node == node && WellFormed(e.w) && (e.BeatEvent? ==> e.h.id != node)
  }

  ghost predicate IsRun(states: seq<Coord>, events: seq<Event>, node: string) {
    && |states| == |events| + 1 && states[0] == CLEARED
    && forall i | 0 <= i < |events| :: Fair(events[i], node) && states[i + 1] == Apply(states[i], events[i])
  }

  // Main result: every state of every run from a cleared coordinator keeps its heartbeats in order.
  lemma {:induction false} RunKeeps(states: seq<Coord>, events: seq<Event>, node: string, k: nat)
    requires IsRun(states, events, node) && k < |states|
    ensures Inv(states[k], node)
  {
    hide Inv, Updated, Accepted, WellFormed;
    if k == 0 {
      ClearedKeeps(node);
    } else {
      RunKeeps(states, events, node, k - 1);
      assert Fair(events[k - 1], node) && states[k - 1 + 1] == Apply(states[k - 1], events[k - 1]);
      match events[k - 1]
      case UpdateEvent(w) => UpdateKeeps(states[k - 1], w);
      case BeatEvent(w, h) => AcceptKeeps(states[k - 1], w, h);
      case ClearEvent => ClearedKeeps(node);
    }
  }

  // Main result: along a run, a slot that stays with one boot of one sender only moves to later
  // sequence numbers, and a group that stays only moves to later terms.
  lemma {:induction false} RunRises(states: seq<Coord>, events: seq<Event>, node: string, i: nat, j: nat, slot: nat)
    requires IsRun(states, events, node) && i <= j < |states| && slot < HEARTBEATS
    requires forall k | i <= k <= j :: |states[k].heartbeats| == HEARTBEATS && states[k].heartbeats[slot].occupied
    requires forall k | i <= k <= j :: states[k].heartbeats[slot].bootId == states[i].heartbeats[slot].bootId
    ensures states[j].heartbeats[slot].id == states[i].heartbeats[slot].id
    ensures states[j].heartbeats[slot].sequence >= states[i].heartbeats[slot].sequence
  {
    hide Updated, Accepted, WellFormed;
    if i < j {
      RunRises(states, events, node, i, j - 1, slot);
      StepRises(states, events, node, j - 1);
      assert SlotRises(states[j - 1].heartbeats[slot], states[j].heartbeats[slot]);
    }
  }

  lemma StepRises(states: seq<Coord>, events: seq<Event>, node: string, k: nat)
    requires IsRun(states, events, node) && k + 1 < |states|
    ensures Rises(states[k], states[k + 1])
  {
    RunKeeps(states, events, node, k);
    assert |states[k].heartbeats| == HEARTBEATS;
    ClearedRises(states[k]);
    hide Updated, Accepted, WellFormed, Rises, Inv;
    assert states[k + 1] == Apply(states[k], events[k]);
    match events[k]
    case UpdateEvent(w) => UpdateRises(states[k], w);
    case BeatEvent(w, h) => AcceptRises(states[k], w, h);
    case ClearEvent =>
  }

  lemma ClearedRises(s: Coord)
    ensures |s.heartbeats| == HEARTBEATS ==> Rises(s, CLEARED)
  {
  }

  lemma {:induction false} RunKeepsTerm(states: seq<Coord>, events: seq<Event>, node: string, i: nat, j: nat, groupId: string)
    requires IsRun(states, events, node) && i <= j < |states|
    requires forall k | i <= k <= j :: states[k].group.occupied && states[k].group.state.groupId == groupId
    ensures states[j].group.state.term >= states[i].group.state.term
  {
    hide Updated, Accepted, WellFormed;
    if i < j {
      RunKeepsTerm(states, events, node, i, j - 1, groupId);
      StepRises(states, events, node, j - 1);
    }
  }

  // Along a run, as long as the group stays: the lead is where it was, or the term has risen.
  lemma {:induction false} RunHoldsOrRises(states: seq<Coord>, events: seq<Event>, node: string, i: nat, j: nat, groupId: string)
    requires IsRun(states, events, node) && i <= j < |states|
    requires forall k | i <= k <= j :: states[k].group.occupied && states[k].group.state.groupId == groupId
    ensures HoldsOrRises(states[i].group, states[j].group)
  {
    hide Updated, Accepted, WellFormed, Holder, SlotRises;
    if i < j {
      RunHoldsOrRises(states, events, node, i, j - 1, groupId);
      RunKeepsTerm(states, events, node, i, j - 1, groupId);
      StepRises(states, events, node, j - 1);
    }
  }

  // Main result: along a run, as long as a group stays, two different leaders of it never have the same
  // term, short of the end of the counter.
  lemma LeadersDiffer(states: seq<Coord>, events: seq<Event>, node: string, i: nat, j: nat, groupId: string)
    requires IsRun(states, events, node) && i <= j < |states|
    requires forall k | i <= k <= j :: states[k].group.occupied && states[k].group.state.groupId == groupId
    requires states[i].group.state.leader != "" && states[j].group.state.leader != ""
    requires states[i].group.state.leader != states[j].group.state.leader
    ensures states[j].group.state.term > states[i].group.state.term || states[j].group.state.term == 0xFFFF_FFFF
  {
    hide IsRun;
    RunHoldsOrRises(states, events, node, i, j, groupId);
  }
}
