/** Whoever an election puts in charge may be in charge, through every overriding stage. */
module LeaderSafety {
  import opened Wrappers
  import opened Bytes
  import opened Clock
  import opened Credentials
  import opened SiteConfiguration
  import opened GroupMembership
  import opened Provisioning
  import opened LeaderRules
  import opened GroupElection

  // A node receives no heartbeat of its own.
  predicate NoOwn(heartbeats: seq<Heartbeat>, node: string) {
    forall h | h in heartbeats :: h.occupied ==> h.id != node
  }

  // A live heartbeat whose sender is active, may lead, is in the group, reports complete
  // credentials, and is known by an enabled credential when credentials are kept.
  predicate ReadyPeer(b: Ballot, h: Heartbeat) {
    h in b.heartbeats && Live(b, h) && Eligible(b, h.id) && InGroup(b, h.id) && h.complete && CredentialEnabled(b, h.id)
  }

  predicate Entitled(b: Ballot, winner: Option<string>, heartbeat: Option<Heartbeat>) {
    match (winner, heartbeat)
    case (None, _) => true
    case (Some(id), None) => id == b.w.node && LocalReady(b)
    case (Some(id), Some(h)) => id == h.id && ReadyPeer(b, h)
  }

  predicate TallySound(b: Ballot, t: Tally) {
    && Entitled(b, t.winner, t.heartbeat)
    && (t.incumbentReady ==> Entitled(b, Some(b.g.state.leader), t.incumbent))
  }

  lemma {:induction false} TallyIsSound(b: Ballot, heartbeats: seq<Heartbeat>)
    requires forall h | h in heartbeats :: h in b.heartbeats
    ensures TallySound(b, TallyAll(b, heartbeats))
  {
    if heartbeats != [] {
      var n := |heartbeats| - 1;
      TallyIsSound(b, heartbeats[..n]);
      assert heartbeats[n] in heartbeats;
      OneIsSound(b, TallyAll(b, heartbeats[..n]), heartbeats[n]);
    } else {
      hide LocalReady, LeaseActive, LocalEligible, Penalty, LocalActive;
    }
  }

  lemma OneIsSound(b: Ballot, t: Tally, h: Heartbeat)
    requires TallySound(b, t) && h in b.heartbeats
    ensures TallySound(b, TallyOne(b, t, h))
  {
    hide LocalReady, LeaseActive, Penalty, Preferred, Live, Eligible, InGroup, MayCombine, CredentialEnabled, Contains;
  }

  lemma DirectoryIsSound(b: Ballot, ch: Choice)
    requires Entitled(b, ch.winner, ch.heartbeat)
    ensures Entitled(b, DirectoryStage(b, ch).winner, DirectoryStage(b, ch).heartbeat)
  {
    hide LocalReady, ExactShape, Expanding, Live, Eligible, InGroup, MayAssign, CredentialEnabled, LiveOf;
  }

  lemma IncumbentIsSound(b: Ballot, t: Tally, ch: Choice)
    requires TallySound(b, t) && Entitled(b, ch.winner, ch.heartbeat)
    ensures Entitled(b, IncumbentStage(b, t, ch).winner, IncumbentStage(b, t, ch).heartbeat)
  {
    hide LocalReady, ExactShape, ReadyPeer, AssignedTo;
  }

  lemma {:induction false} MemberIsSound(b: Ballot, members: seq<GroupMember>, version: nat, digest: U32)
    ensures var chosen := EndorsedMember(b, members, version, digest);
            chosen.Some? ==> Entitled(b, chosen.value.winner, chosen.value.heartbeat)
  {
    hide LocalReady, NamedBy, Live, Eligible, InGroup, CredentialEnabled, LiveOf;
    if members != [] {
      MemberIsSound(b, members[1..], version, digest);
    }
  }

  lemma EndorsedIsSound(b: Ballot, t: Tally, ch: Choice)
    requires Entitled(b, ch.winner, ch.heartbeat)
    ensures Entitled(b, EndorsedStage(b, t, ch).winner, EndorsedStage(b, t, ch).heartbeat)
  {
    var third := EndorsedDigest(b, b.heartbeats, 3);
    var second := if third != 0 then 0 else EndorsedDigest(b, b.heartbeats, 2);
    MemberIsSound(b, b.view.members, if third != 0 then 3 else 2, if third != 0 then third else second);
    hide Entitled, EndorsedMember, EndorsedDigest, IncumbentSelected, AssignedTo;
  }

  lemma ElectedIsSound(b: Ballot)
    ensures Entitled(b, Elected(b).winner, Elected(b).heartbeat)
  {
    hide Entitled, DirectoryStage, IncumbentStage, EndorsedStage, TallyAll;
    TallyIsSound(b, b.heartbeats);
    var t := TallyAll(b, b.heartbeats);
    assert Entitled(b, t.winner, t.heartbeat);
    var first := Choice(t.winner, t.heartbeat, false);
    DirectoryIsSound(b, first);
    IncumbentIsSound(b, t, DirectoryStage(b, first));
    EndorsedIsSound(b, t, IncumbentStage(b, t, DirectoryStage(b, first)));
  }

  function CountPresent(b: Ballot, heartbeats: seq<Heartbeat>): nat {
    if heartbeats == [] then 0
    else CountPresent(b, heartbeats[..|heartbeats| - 1]) + if Present(b, heartbeats[|heartbeats| - 1]) then 1 else 0
  }

  // The nodes this one counts as online: itself and the senders of present heartbeats.
  lemma {:induction false} OnlineCounts(b: Ballot, heartbeats: seq<Heartbeat>)
    ensures TallyAll(b, heartbeats).online == (if LocalActive(b) && b.allowed then 1 else 0) + CountPresent(b, heartbeats)
    ensures TallyAll(b, heartbeats).observed >= b.g.state.term
  {
    hide Present, MayLead, LocalActive, LocalReady, LocalEligible, LeaseActive, Preferred, Penalty;
    if heartbeats != [] {
      OnlineCounts(b, heartbeats[..|heartbeats| - 1]);
    }
  }

  // What holds of a group after an election among several expected participants.
  predicate Safe(b: Ballot, s: GroupState) {
    && (s.localLeader <==> s.leader == b.w.node)
    && (s.leader != "" ==>
          && s.quorumAvailable && 2 * s.online > s.expected && !TimeReached(b.w.now, s.leaseExpiresAt)
          && ((s.leader == b.w.node && LocalReady(b)) ||
              exists i | 0 <= i < |b.heartbeats| :: b.heartbeats[i].id == s.leader && ReadyPeer(b, b.heartbeats[i])))
  }

  lemma LeaseIsAhead(now: U32)
    ensures !TimeReached(now, Wrap32(now + DEFAULT_LEASE))
  {
  }

  lemma JudgedOnline(b: Ballot, t: Tally, ch: Choice)
    ensures Voted(b, t, ch).state.quorumAvailable ==> 2 * t.online > b.g.state.expected
  {
    hide CountAll, Strongest, InTransition, TransitionViews, ChoiceComplete, KeepEndorsements, ExactShape, PeerFenced, ViewDigests;
  }

  lemma LeadIsSafe(b: Ballot, g: GroupSlot, t: Tally, winner: string, heartbeat: Option<Heartbeat>)
    requires b.w.node != "" && NoOwn(b.heartbeats, b.w.node) && Entitled(b, Some(winner), heartbeat)
    requires g.state.quorumAvailable && 2 * t.online > g.state.expected
    ensures Safe(b, TakeLead(b, g, t, winner, heartbeat).state)
  {
    hide DecideTerm, LocalReady, ReadyPeer, NoOwn, TimeReached;
    LeaseIsAhead(b.w.now);
    if heartbeat.Some? {
      PeerLeads(b, heartbeat.value);
    }
  }

  lemma PeerLeads(b: Ballot, h: Heartbeat)
    requires NoOwn(b.heartbeats, b.w.node) && ReadyPeer(b, h)
    ensures h.id != b.w.node && !TimeReached(b.w.now, h.expiresAt)
    ensures exists i | 0 <= i < |b.heartbeats| :: b.heartbeats[i].id == h.id && ReadyPeer(b, b.heartbeats[i])
  {
    hide Eligible, InGroup, CredentialEnabled, TimeReached;
    var i :| 0 <= i < |b.heartbeats| && b.heartbeats[i] == h;
  }

  lemma StandDownIsSafe(b: Ballot, g: GroupSlot, suspendedTerm: U32, online: nat)
    requires b.w.node != ""
    ensures Safe(b, StandDown(g, suspendedTerm, online, b.w.now).state)
  {
  }

  lemma SettleIsSafe(b: Ballot, t: Tally, ch: Choice)
    requires b.w.node != "" && NoOwn(b.heartbeats, b.w.node) && Contested(b) && Entitled(b, ch.winner, ch.heartbeat)
    ensures Safe(b, Settle(b, t, ch).state)
  {
    var g := Voted(b, t, ch);
    JudgedOnline(b, t, ch);
    assert g.state.expected == b.g.state.expected;
    hide Voted, Safe, TakeLead, StandDown, Entitled, NoOwn;
    if !g.state.quorumAvailable {
      var term := if g.state.term == 0 then 1 else g.state.term;
      StandDownIsSafe(b, g.(state := g.state.(term := term)), term, t.online);
    } else if ch.winner.None? {
      StandDownIsSafe(b, g, g.state.term, t.online);
    } else {
      LeadIsSafe(b, g, t, ch.winner.value, ch.heartbeat);
    }
  }

  // Main result: a leader elected among several expected participants has a majority online, an
  // unexpired lease, and is this node when ready or a ready peer.
  lemma ElectionIsSafe(b: Ballot)
    requires b.w.node != "" && NoOwn(b.heartbeats, b.w.node) && Contested(b)
    ensures Safe(b, Elect(b).state)
  {
    hide Entitled, Elected, Settle, TallyAll, Safe, Contested, NoOwn;
    ElectedIsSound(b);
    SettleIsSafe(b, TallyAll(b, b.heartbeats), Elected(b));
  }

  lemma StandDownKeepsTerm(g: GroupSlot, suspendedTerm: U32, online: nat, now: U32)
    ensures StandDown(g, suspendedTerm, online, now).state.term == g.state.term
  {
  }

  lemma LeadTerm(b: Ballot, g: GroupSlot, t: Tally, winner: string, heartbeat: Option<Heartbeat>)
    ensures var admitted := heartbeat.Some? && heartbeat.value.termAdmitted;
            TakeLead(b, g, t, winner, heartbeat).state.term ==
            DecideTerm(g.state.term, g.state.leader, g.suspendedTerm, g.suspended, winner, heartbeat.None?,
                       if admitted then heartbeat.value.term else 0, admitted, t.observed).0
  {
    hide DecideTerm, StandDown;
    var admitted := heartbeat.Some? && heartbeat.value.termAdmitted;
    var (term, _) := DecideTerm(g.state.term, g.state.leader, g.suspendedTerm, g.suspended, winner, heartbeat.None?,
                                if admitted then heartbeat.value.term else 0, admitted, t.observed);
    StandDownKeepsTerm(g.(state := g.state.(term := term, quorumAvailable := false)), g.state.term, t.online, b.w.now);
  }

  lemma LeadKeepsTerm(b: Ballot, g: GroupSlot, t: Tally, winner: string, heartbeat: Option<Heartbeat>)
    requires t.observed >= g.state.term
    ensures TakeLead(b, g, t, winner, heartbeat).state.term >= g.state.term
  {
    hide TakeLead, DecideTerm;
    var admitted := heartbeat.Some? && heartbeat.value.termAdmitted;
    LeadTerm(b, g, t, winner, heartbeat);
    TermNeverFalls(g.state.term, g.state.leader, g.suspendedTerm, g.suspended, winner, heartbeat.None?,
                   if admitted then heartbeat.value.term else 0, admitted, t.observed);
  }

  lemma VotedKeeps(b: Ballot, t: Tally, ch: Choice)
    ensures Voted(b, t, ch).state.term == b.g.state.term && Voted(b, t, ch).state.leader == b.g.state.leader
    ensures Voted(b, t, ch).suspended == b.g.suspended && Voted(b, t, ch).suspendedTerm == b.g.suspendedTerm
  {
    hide Judge, AssignmentRevision, ChoiceComplete, ViewDigests;
  }

  lemma SettleKeepsTerm(b: Ballot, t: Tally, ch: Choice)
    requires t.observed >= b.g.state.term
    ensures Settle(b, t, ch).state.term >= b.g.state.term
  {
    hide Voted, Contested, TakeLead;
    VotedKeeps(b, t, ch);
    if ch.winner.Some? {
      LeadKeepsTerm(b, Voted(b, t, ch), t, ch.winner.value, ch.heartbeat);
    }
  }

  // Main result: an election never lowers the group's term.
  lemma ElectionKeepsTerm(b: Ballot)
    ensures Elect(b).state.term >= b.g.state.term
  {
    hide Settle, TallyAll, Elected;
    OnlineCounts(b, b.heartbeats);
    SettleKeepsTerm(b, TallyAll(b, b.heartbeats), Elected(b));
  }

  // A leader that takes over from another one, still in charge or suspended, does so in a later
  // term, unless the counter is exhausted.
  lemma TakeOverRaisesTerm(b: Ballot, g: GroupSlot, t: Tally, winner: string, heartbeat: Option<Heartbeat>)
    ensures var r := TakeLead(b, g, t, winner, heartbeat);
            r.state.leader != "" ==>
              && (g.state.leader != "" && g.state.leader != winner ==>
                    r.state.term > g.state.term || r.state.term == 0xFFFF_FFFF)
              && (g.state.leader == "" && g.suspended != "" && g.suspended != winner ==>
                    r.state.term > g.suspendedTerm || r.state.term == 0xFFFF_FFFF)
  {
    var admitted := heartbeat.Some? && heartbeat.value.termAdmitted;
    var winnerTerm := if admitted then heartbeat.value.term else 0;
    var (term, ready) := DecideTerm(g.state.term, g.state.leader, g.suspendedTerm, g.suspended, winner, heartbeat.None?,
                                    winnerTerm, admitted, t.observed);
    if ready {
      TakingOverRaises(g.state.term, g.state.leader, g.suspendedTerm, g.suspended, winner, heartbeat.None?, winnerTerm,
                       admitted, t.observed);
    }
    hide DecideTerm;
  }

  // Main result: when an election replaces a leader by another, the term rises.
  lemma NewLeaderRaisesTerm(b: Ballot)
    requires b.g.state.leader != "" && Elect(b).state.leader != "" && Elect(b).state.leader != b.g.state.leader
    ensures Elect(b).state.term > b.g.state.term || Elect(b).state.term == 0xFFFF_FFFF
  {
    hide Voted, TallyAll, Elected, Contested, TakeLead;
    var t, ch := TallyAll(b, b.heartbeats), Elected(b);
    var g := Voted(b, t, ch);
    VotedKeeps(b, t, ch);
    if ch.winner.Some? && ch.winner.value != "" {
      LeaderIsWinner(b, g, t, ch.winner.value, ch.heartbeat);
      TakeOverRaisesTerm(b, g, t, ch.winner.value, ch.heartbeat);
    } else if ch.winner.Some? {
      LeaderIsWinner(b, g, t, ch.winner.value, ch.heartbeat);
    }
  }

  // Who leads the group, or led it last.
  function Holder(g: GroupSlot): string {
    if g.state.leader != "" then g.state.leader else g.suspended
  }

  // The lead stays where it is, or the term rises, or the counter is exhausted.
  predicate HoldsOrRises(g: GroupSlot, r: GroupSlot) {
    Holder(g) != "" ==> Holder(r) == Holder(g) || r.state.term > g.state.term || r.state.term == 0xFFFF_FFFF
  }

  lemma StandDownHolds(g: GroupSlot, suspendedTerm: U32, online: nat, now: U32)
    ensures Holder(StandDown(g, suspendedTerm, online, now)) == Holder(g)
  {
  }

  lemma LeadHolds(b: Ballot, g: GroupSlot, t: Tally, winner: string, heartbeat: Option<Heartbeat>)
    ensures HoldsOrRises(g, TakeLead(b, g, t, winner, heartbeat))
  {
    hide DecideTerm, StandDown;
    var admitted := heartbeat.Some? && heartbeat.value.termAdmitted;
    var winnerTerm := if admitted then heartbeat.value.term else 0;
    var (term, ready) := DecideTerm(g.state.term, g.state.leader, g.suspendedTerm, g.suspended, winner, heartbeat.None?,
                                    winnerTerm, admitted, t.observed);
    if ready {
      TakingOverRaises(g.state.term, g.state.leader, g.suspendedTerm, g.suspended, winner, heartbeat.None?, winnerTerm,
                       admitted, t.observed);
    } else {
      StandDownHolds(g.(state := g.state.(term := term, quorumAvailable := false)), g.state.term, t.online, b.w.now);
    }
  }

  lemma SettleHolds(b: Ballot, t: Tally, ch: Choice)
    ensures HoldsOrRises(Voted(b, t, ch), Settle(b, t, ch))
  {
    hide Voted, Contested, TakeLead, StandDown;
    var g := Voted(b, t, ch);
    var term: U32 := if g.state.term == 0 then 1 else g.state.term;
    StandDownHolds(g.(state := g.state.(term := term)), term, t.online, b.w.now);
    StandDownHolds(g, g.state.term, t.online, b.w.now);
    if ch.winner.Some? {
      LeadHolds(b, g, t, ch.winner.value, ch.heartbeat);
    }
  }

  // Main result: whether or not somebody leads after an election, the lead is where it was, or the
  // term has risen, unless the counter is exhausted.
  lemma ElectionHoldsOrRises(b: Ballot)
    ensures HoldsOrRises(b.g, Elect(b))
  {
    hide Voted, TallyAll, Elected, Settle;
    VotedKeeps(b, TallyAll(b, b.heartbeats), Elected(b));
    SettleHolds(b, TallyAll(b, b.heartbeats), Elected(b));
  }

  lemma LeaderIsWinner(b: Ballot, g: GroupSlot, t: Tally, winner: string, heartbeat: Option<Heartbeat>)
    ensures var r := TakeLead(b, g, t, winner, heartbeat); r.state.leader == "" || r.state.leader == winner
  {
    hide DecideTerm;
  }

  // Whom the tally may put forward.
  predicate Stands(b: Ballot, h: Heartbeat) {
    Present(b, h) && MayLead(b, h)
  }

  predicate Outranks(b: Ballot, a: string, than: string) {
    Penalty(b, a) < Penalty(b, than) || (Penalty(b, a) == Penalty(b, than) && Less(a, than))
  }

  lemma OutranksTransitive(b: Ballot, x: string, y: string, z: string)
    requires Outranks(b, x, y) && Outranks(b, y, z)
    ensures Outranks(b, x, z)
  {
    hide Penalty;
    if Less(x, y) && Less(y, z) { LessTransitive(x, y, z); }
  }

  // Main result: before the overriding stages, no candidate outranks the winner: the smallest
  // penalty wins, then the smallest id, in whatever order the heartbeats are kept.
  lemma {:induction false} WinnerIsPreferred(b: Ballot, heartbeats: seq<Heartbeat>)
    ensures var t := TallyAll(b, heartbeats);
            && (t.winner.Some? ==> t.penalty == Penalty(b, t.winner.value))
            && (LocalReady(b) ==> t.winner.Some? && !Outranks(b, b.w.node, t.winner.value))
            && forall h | h in heartbeats && Stands(b, h) :: t.winner.Some? && !Outranks(b, h.id, t.winner.value)
  {
    if heartbeats == [] {
      NotOverItself(b, b.w.node);
      assert LocalReady(b) ==> LocalEligible(b);
      hide LocalReady, LocalEligible, Penalty, LeaseActive, LocalActive, Outranks;
    } else {
      var n := |heartbeats| - 1;
      var before, h := TallyAll(b, heartbeats[..n]), heartbeats[n];
      WinnerIsPreferred(b, heartbeats[..n]);
      hide LocalReady, Present, MayLead, Penalty, LeaseActive;
      NotOverItself(b, h.id);
      var t := TallyAll(b, heartbeats);
      assert t == TallyOne(b, before, h);
      forall id | before.winner.Some? && !Outranks(b, id, before.winner.value) ensures t.winner.Some? && !Outranks(b, id, t.winner.value) {
        if t.winner != before.winner && Outranks(b, id, h.id) {
          OutranksTransitive(b, id, h.id, before.winner.value);
        }
      }
    }
  }

  lemma NotOverItself(b: Ballot, id: string)
    ensures !Outranks(b, id, id)
  {
    IrreflexiveLess(id);
  }
}
