/** The group coordinator object: one group, six heartbeat slots, changed in place. */
module GroupCoordinator {
  import opened Wrappers
  import opened Bytes
  import opened Clock
  import opened SiteConfiguration
  import opened GroupRoster
  import opened GroupMembership
  import opened LeaderRules
  import opened GroupElection
  import opened ElectionSteps
  import opened GroupCoordination

  class Coordinator {
    var group: GroupSlot
    const heartbeats: array<Heartbeat>
    var view: MembershipView
    var generation: U32

    ghost predicate Valid() {
      heartbeats.Length == HEARTBEATS
    }

    function View(): Coord
      reads this, heartbeats
    {
      Coord(group, heartbeats[..], view, generation)
    }

    constructor ()
      ensures Valid() && View() == CLEARED && fresh(heartbeats)
    {
      heartbeats := new Heartbeat[HEARTBEATS](_ => NO_HEARTBEAT);
      group, view, generation := NO_GROUP, NO_VIEW, 0;
      new;
      assert heartbeats[..] == NoHeartbeats(HEARTBEATS);
    }

    method Clear()
      requires Valid()
      modifies this, heartbeats
      ensures View() == CLEARED
    {
      group, view, generation := NO_GROUP, NO_VIEW, 0;
      for i := 0 to heartbeats.Length
        modifies heartbeats
        invariant forall j | 0 <= j < i :: heartbeats[j] == NO_HEARTBEAT
      {
        heartbeats[i] := NO_HEARTBEAT;
      }
      assert heartbeats[..] == NoHeartbeats(HEARTBEATS);
    }

    // ---------------------------------------------------------------- scope

    method Ensure(groupId: string, configured: bool) returns (ok: bool)
      modifies this`group
      ensures (group, ok) == EnsureGroup(old(group), groupId, configured)
    {
      if group.occupied && group.state.groupId == groupId {
        group := group.(state := group.state.(configured := configured));
        return true;
      }
      if group.occupied && group.seen { return false; }
      group := NewGroup(groupId, configured);
      ok := true;
    }

    method OpenStandalone()
      modifies this`group
      ensures group == Standalone(old(group))
    {
      var ok := Ensure("", false);
      if ok {
        group := group.(seen := true, state := group.state.(expected := 1, online := 1));
      }
    }

    method Agree(w: World, c: Option<Configuration>) returns (chosen: Option<string>)
      ensures chosen == AgreedGroup(w, c, w.participants, None)
    {
      hide AssignedGroup;
      chosen := None;
      for i := 0 to |w.participants|
        invariant AgreedGroup(w, c, w.participants[i..], chosen) == AgreedGroup(w, c, w.participants, None)
      {
        assert w.participants[i..][1..] == w.participants[i + 1..];
        var p := w.participants[i];
        if p.None? || p.value.membership != Active || w.readyGroup(p.value.id).None? { continue; }
        var candidate := AssignedGroup(w, c, NO_VIEW, p.value.id);
        if candidate.None? || candidate.value == "" { continue; }
        if chosen.None? {
          chosen := candidate;
        } else if chosen != candidate {
          return None;
        }
      }
    }

    method GatherScope(w: World, c: Option<Configuration>) returns (found: bool)
      modifies this`group
      ensures (group, found) == GatherPeers(w, c, view, w.participants, SelectedGroup(w, c), old(group), false)
    {
      hide AssignedGroup, MemberActive;
      var m := if c.Some? then FindMember(c.value.members, w.node) else None;
      var selected;
      if m.Some? && m.value.profile.committed && m.value.profile.groupId != "" {
        selected := Some(m.value.profile.groupId);
      } else {
        selected := Agree(w, c);
      }
      assert selected == SelectedGroup(w, c);
      hide SelectedGroup;
      ghost var goal := GatherPeers(w, c, view, w.participants, selected, group, false);
      found := false;
      for i := 0 to |w.participants|
        invariant GatherPeers(w, c, view, w.participants[i..], selected, group, found) == goal
      {
        assert w.participants[i..][1..] == w.participants[i + 1..];
        if !CountsAsPeer(w, c, view, w.participants[i], selected) { continue; }
        var ok := Ensure(selected.value, true);
        if !ok { continue; }
        group := group.(seen := true, state := group.state.(expected := group.state.expected + 1));
        found := true;
      }
    }

    method Scope(w: World)
      modifies this`group
      ensures group == OpenScope(w, view, old(group))
    {
      hide GatherPeers, SelectedGroup, EnsureGroup, Standalone;
      if view.valid && !view.admitted { return; }
      if view.valid {
        var ok := Ensure(view.groupId, true);
        if ok {
          group := group.(seen := true, state := group.state.(expected := |view.members|, online := 1));
        } else {
          OpenStandalone();
        }
        return;
      }
      var found := GatherScope(w, Canonical(w));
      if !found {
        OpenStandalone();
      } else if group.occupied && group.seen && group.state.configured {
        group := group.(state := group.state.(expected := group.state.expected + 1, online := group.state.online + 1));
      }
    }

    // ---------------------------------------------------------------- update

    method Reconcile(w: World, c: Option<Configuration>)
      requires Valid()
      modifies heartbeats
      ensures heartbeats[..] == Reconciled(w, c, view, old(heartbeats[..]))
    {
      hide Lapsed;
      ghost var was := heartbeats[..];
      for i := 0 to heartbeats.Length
        invariant forall j | 0 <= j < i :: heartbeats[j] == Kept(w, c, view, was[j])
        invariant forall j | i <= j < heartbeats.Length :: heartbeats[j] == was[j]
      {
        if !heartbeats[i].occupied { continue; }
        if Lapsed(w, c, view, heartbeats[i]) {
          heartbeats[i] := NO_HEARTBEAT;
        }
      }
      assert heartbeats[..] == Reconciled(w, c, view, was);
    }

    method Suspend(suspendedTerm: U32, online: nat, now: U32)
      modifies this`group
      ensures group == StandDown(old(group), suspendedTerm, online, now)
    {
      if group.state.leader != "" {
        group := group.(suspended := group.state.leader, suspendedTerm := suspendedTerm);
      }
      group := group.(state := group.state.(leader := "", localLeader := false, leaseExpiresAt := now, online := online,
                                            complete := false, canonicalAssignment := false));
    }

    // The vote's results on the group; the choice itself.
    method Vote(b: Ballot, t: Tally) returns (ch: Choice)
      requires b.g == group && t == TallyAll(b, b.heartbeats)
      modifies this`group
      ensures ch == Elected(b) && group == Voted(b, t, ch)
    {
      hide DirectoryStage, IncumbentStage, EndorsedStage, TallyAll, Judge, ViewDigests, ChoiceComplete, AssignmentRevision;
      ch := Choice(t.winner, t.heartbeat, false);
      ch := DirectoryOverride(b, ch);
      ch := IncumbentStage(b, t, ch);
      ch := EndorsedOverride(b, t, ch);
      assert ch == Elected(b);
      var o := JudgeVote(b, t, ch);
      group := group.(views := o.views,
                      state := group.state.(assignmentRevision := AssignmentRevision(b), canonicalAssignment := ch.canonical,
                                            complete := ChoiceComplete(b, ch), required := o.required,
                                            quorumAvailable := o.quorum, digests := ViewDigests(b, ch),
                                            endorsements := o.endorsements, fenced := o.fenced));
    }

    method Lead(b: Ballot, t: Tally, winner: string, heartbeat: Option<Heartbeat>)
      modifies this`group
      ensures group == TakeLead(b, old(group), t, winner, heartbeat)
    {
      hide DecideTerm;
      var admitted := heartbeat.Some? && heartbeat.value.termAdmitted;
      var winnerTerm := if admitted then heartbeat.value.term else 0;
      var (term, ready) := DecideTerm(group.state.term, group.state.leader, group.suspendedTerm, group.suspended, winner,
                                      heartbeat.None?, winnerTerm, admitted, t.observed);
      if !ready {
        var suspendedTerm := group.state.term;
        group := group.(state := group.state.(term := term, quorumAvailable := false));
        Suspend(suspendedTerm, t.online, b.w.now);
        return;
      }
      var lease := if heartbeat.None? then Wrap32(b.w.now + DEFAULT_LEASE) else heartbeat.value.expiresAt;
      group := group.(suspended := "", suspendedTerm := 0,
                      state := group.state.(term := term, leader := winner, localLeader := heartbeat.None?,
                                            leaseExpiresAt := lease, online := t.online));
    }

    method ElectLeader(b: Ballot)
      requires b.g == group
      modifies this`group
      ensures group == Elect(b)
    {
      hide TallyAll, Elected, Voted, TakeLead, Contested;
      var t := TallyCandidates(b);
      var ch := Vote(b, t);
      if Contested(b) && !group.state.quorumAvailable {
        if group.state.term == 0 {
          group := group.(state := group.state.(term := 1));
        }
        Suspend(group.state.term, t.online, b.w.now);
        return;
      }
      if ch.winner.None? {
        Suspend(group.state.term, t.online, b.w.now);
        return;
      }
      Lead(b, t, ch.winner.value, ch.heartbeat);
    }

    method Update(w: World)
      requires Valid()
      modifies this, heartbeats
      ensures View() == Updated(old(View()), w)
    {
      hide NextView, OpenScope, Elect, Canonical, LiveRoster, IsLocalGroup, Kept, Noticed;
      if !ValidName(w.node, MAX_ID) { return; }
      var viewWas := view;
      view := NextView(w);
      var changed := view != viewWas;
      if group.occupied {
        group := group.(seen := false, previousExpected := group.state.expected, previousOnline := group.state.online,
                        state := group.state.(expected := 0, online := 0));
      }
      Scope(w);
      if group.occupied && !group.seen {
        group := NO_GROUP;
        changed := true;
      }
      Reconcile(w, Canonical(w));
      if group.occupied && group.seen {
        var before := group;
        var allowed := !group.state.configured || IsLocalGroup(w, Canonical(w), view, group);
        var b := Ballot(w, Canonical(w), LiveRoster(w), view, heartbeats[..], group, allowed);
        ElectLeader(b);
        group := group.(electionRoster := if b.c.Some? then b.c.value.rosterRevision else 0,
                        electionAssignment := group.state.assignmentRevision);
        changed := changed || Noticed(before, group);
      }
      if changed || generation == 0 {
        generation := Wrap32(generation + 1);
      }
    }

    // ---------------------------------------------------------------- heartbeats

    method EnsureHeartbeat(id: string) returns (slot: nat)
      requires Valid()
      ensures slot == SlotFor(heartbeats[..], id)
    {
      slot := 0;
      while slot < heartbeats.Length
        invariant slot <= HeartbeatIndex(heartbeats[..], id)
      {
        if heartbeats[slot].occupied && heartbeats[slot].id == id { return; }
        slot := slot + 1;
      }
      slot := 0;
      while slot < heartbeats.Length
        invariant slot <= FreeIndex(heartbeats[..]) && HeartbeatIndex(heartbeats[..], id) == heartbeats.Length
      {
        if !heartbeats[slot].occupied { return; }
        slot := slot + 1;
      }
    }

    method AcceptHeartbeat(w: World, h: Beat) returns (r: BeatResult)
      requires Valid()
      modifies this`generation, heartbeats
      ensures (View(), r) == Accepted(old(View()), w, h)
    {
      hide ActiveIn, AssignedGroup, Contains, EligibleIn, ValidBeat, TimeReached, FindParticipant;
      if !ValidBeat(h) { return BeatInvalid; }
      if h.age >= h.lease { return BeatExpired; }
      var c := if w.configuration.Some? && w.configuration.value.rosterCommitted then w.configuration else None;
      var p := FindParticipant(w.participants, h.id);
      if view.valid && (!view.admitted || !Contains(view, h.id)) { return GroupMismatch; }
      if !ActiveIn(p, c, view, h.id) {
        return if c.None? && p.None? then UnknownParticipant else ParticipantInactive;
      }
      if view.valid && view.groupId != h.groupId { return GroupMismatch; }
      if AssignedGroup(w, c, view, h.id) != Some(h.groupId) { return GroupMismatch; }
      if !group.occupied || group.state.groupId != h.groupId { return GroupMismatch; }
      var slot := EnsureHeartbeat(h.id);
      if slot == heartbeats.Length { return NoRoom; }
      if heartbeats[slot].occupied && heartbeats[slot].bootId == h.bootId && h.sequence <= heartbeats[slot].sequence {
        return Repeated;
      }
      var leaseActive := group.state.leader != "" && !TimeReached(w.now, group.state.leaseExpiresAt);
      var stale := EligibleIn(p, c, view, h.id) && group.state.leader != "" && group.state.leader == h.id &&
                   h.term < group.state.term && leaseActive;
      assert stale == StaleLeader(View(), w, c, h);
      heartbeats[slot] := Heartbeat(true, h.id, h.bootId, h.sequence, h.term, Wrap32(w.now + (h.lease - h.age)), !stale,
                                    h.rosterRevision, h.assignmentRevision, h.digest, h.version, h.complete);
      generation := Wrap32(generation + 1);
      r := if stale then StaleTerm else BeatOk;
    }
  }
}
