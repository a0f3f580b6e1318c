/** The election's loops over heartbeats and members, one method each. */
module ElectionSteps {
  import opened Wrappers
  import opened Bytes
  import opened Clock
  import opened SiteConfiguration
  import opened GroupMembership
  import opened Provisioning
  import opened LeaderRules
  import opened GroupElection

  // Counts who is online and picks the preferred candidate.
  method TallyCandidates(b: Ballot) returns (t: Tally)
    ensures t == TallyAll(b, b.heartbeats)
  {
    hide LocalReady, LocalEligible, LocalActive, LeaseActive, Present, MayLead, Penalty, Preferred;
    var ready := LocalReady(b);
    var winner := if ready then Some(b.w.node) else None;
    var penalty: nat := if LocalEligible(b) then Penalty(b, b.w.node) else 0;
    var heartbeat: Option<Heartbeat> := None;
    var electing := b.c.Some? && b.g.state.configured && LeaseActive(b);
    var incumbentReady := electing && ready && b.g.state.leader == b.w.node;
    var incumbent: Option<Heartbeat> := None;
    var incumbentPenalty: nat := penalty;
    var online: nat := if LocalActive(b) && b.allowed then 1 else 0;
    var observed := b.g.state.term;
    for i := 0 to |b.heartbeats|
      invariant Tally(winner, penalty, heartbeat, incumbentReady, incumbent, incumbentPenalty, online, observed)
             == TallyAll(b, b.heartbeats[..i])
    {
      assert b.heartbeats[..i + 1][..i] == b.heartbeats[..i];
      var h := b.heartbeats[i];
      if !Present(b, h) { continue; }
      online := online + 1;
      if !MayLead(b, h) { continue; }
      if h.termAdmitted && h.term > observed {
        observed := h.term;
      }
      var candidatePenalty := Penalty(b, h.id);
      if electing && b.g.state.leader == h.id {
        incumbentReady, incumbent, incumbentPenalty := true, Some(h), candidatePenalty;
      }
      if Preferred(h.id, candidatePenalty, winner, penalty) {
        winner, penalty, heartbeat := Some(h.id), candidatePenalty, Some(h);
      }
    }
    assert b.heartbeats[..|b.heartbeats|] == b.heartbeats;
    t := Tally(winner, penalty, heartbeat, incumbentReady, incumbent, incumbentPenalty, online, observed);
  }

  method LiveHeartbeat(b: Ballot, id: string, complete: bool) returns (found: Option<Heartbeat>)
    ensures found == LiveOf(b, b.heartbeats, id, complete)
  {
    hide Live;
    for i := 0 to |b.heartbeats|
      invariant LiveOf(b, b.heartbeats[i..], id, complete) == LiveOf(b, b.heartbeats, id, complete)
    {
      var h := b.heartbeats[i];
      assert b.heartbeats[i..][1..] == b.heartbeats[i + 1..];
      if Live(b, h) && h.id == id && (complete ==> h.complete) { return Some(h); }
    }
    found := None;
  }

  method DirectoryOverride(b: Ballot, ch: Choice) returns (next: Choice)
    ensures next == DirectoryStage(b, ch)
  {
    hide ExactShape, Expanding, LocalReady, MayAssign, Eligible, InGroup, CredentialEnabled, LiveOf;
    next := ch;
    if !ExactShape(b) && !Expanding(b) { return; }
    assert DirectoryEntry(b).Some? by { EntryExists(b); }
    var named := DirectoryEntry(b).value.leaderId;
    if named == b.w.node {
      if LocalReady(b) && MayAssign(b, b.w.node) {
        next := Choice(Some(b.w.node), None, ExactShape(b));
      }
    } else {
      var h := LiveHeartbeat(b, named, false);
      if h.Some? && Eligible(b, named) && MayAssign(b, named) && InGroup(b, named) && h.value.complete &&
         CredentialEnabled(b, named) {
        next := Choice(Some(named), h, ExactShape(b));
      }
    }
  }

  lemma EntryExists(b: Ballot)
    requires ExactShape(b) || Expanding(b)
    ensures DirectoryEntry(b).Some?
  {
  }

  method CountSupport(b: Ballot, version: nat, digest: U32) returns (support: nat)
    ensures support == Support(b, b.heartbeats, version, digest)
  {
    hide VotesIn;
    support := 0;
    for i := 0 to |b.heartbeats|
      invariant support == Support(b, b.heartbeats[..i], version, digest)
    {
      assert b.heartbeats[..i + 1][..i] == b.heartbeats[..i];
      var h := b.heartbeats[i];
      if VotesIn(b, h, version) && h.digest == digest {
        support := support + 1;
      }
    }
    assert b.heartbeats[..|b.heartbeats|] == b.heartbeats;
  }

  method FindEndorsed(b: Ballot, version: nat) returns (digest: U32)
    ensures digest == EndorsedDigest(b, b.heartbeats, version)
  {
    hide VotesIn, Support;
    for i := 0 to |b.heartbeats|
      invariant EndorsedDigest(b, b.heartbeats[i..], version) == EndorsedDigest(b, b.heartbeats, version)
    {
      var h := b.heartbeats[i];
      assert b.heartbeats[i..][1..] == b.heartbeats[i + 1..];
      if !VotesIn(b, h, version) || h.digest == 0 { continue; }
      var support := CountSupport(b, version, h.digest);
      if support >= StrictMajority(b.g.state.expected) { return h.digest; }
    }
    digest := 0;
  }

  method EndorsedOverride(b: Ballot, t: Tally, ch: Choice) returns (next: Choice)
    ensures next == EndorsedStage(b, t, ch)
  {
    hide Bounded, EndorsedDigest, EndorsedMember, AssignedTo;
    next := ch;
    if !Bounded(b) || IncumbentSelected(t) || b.g.state.expected <= 1 { return; }
    var version := 3;
    var digest := FindEndorsed(b, 3);
    if digest == 0 {
      version := 2;
      digest := FindEndorsed(b, 2);
    }
    if digest == 0 { return; }
    var chosen := FindMemberNamed(b, version, digest);
    if chosen.Some? {
      next := chosen.value;
    }
    next := next.(canonical := AssignedTo(b, next.winner));
  }

  method FindMemberNamed(b: Ballot, version: nat, digest: U32) returns (chosen: Option<Choice>)
    ensures chosen == EndorsedMember(b, b.view.members, version, digest)
  {
    hide NamedBy, LocalReady, Live, LiveOf, Eligible, InGroup, CredentialEnabled;
    for i := 0 to |b.view.members|
      invariant EndorsedMember(b, b.view.members[i..], version, digest) == EndorsedMember(b, b.view.members, version, digest)
    {
      var m := b.view.members[i];
      assert b.view.members[i..][1..] == b.view.members[i + 1..];
      if !NamedBy(b, m, version, digest) { continue; }
      if m.id == b.w.node {
        if !LocalReady(b) { continue; }
        return Some(Choice(Some(b.w.node), None, false));
      }
      var h := LiveHeartbeat(b, m.id, true);
      if h.None? || !Eligible(b, m.id) || (b.c.Some? && !CombinationAllowed(b.c.value, b.w.siteLeader, m.id)) ||
         !InGroup(b, m.id) || !CredentialEnabled(b, m.id) { continue; }
      return Some(Choice(Some(m.id), h, false));
    }
    chosen := None;
  }

  method PeerIsFenced(b: Ballot) returns (fenced: bool)
    ensures fenced == PeerFenced(b)
  {
    hide Present;
    for i := 0 to |b.heartbeats|
      invariant forall j | 0 <= j < i :: !(Present(b, b.heartbeats[j]) && b.heartbeats[j].digest != 0)
    {
      if Present(b, b.heartbeats[i]) && b.heartbeats[i].digest != 0 { return true; }
    }
    fenced := false;
  }

  method PeerMoved(b: Ballot) returns (moved: bool)
    ensures moved == PeerMoves(b)
  {
    hide Live, RevisionsDiffer;
    if b.c.None? { return false; }
    for i := 0 to |b.heartbeats|
      invariant forall j | 0 <= j < i :: !(Live(b, b.heartbeats[j]) && b.heartbeats[j].complete && RevisionsDiffer(b, b.heartbeats[j]))
    {
      var h := b.heartbeats[i];
      if !Live(b, h) || !h.complete { continue; }
      if RevisionsDiffer(b, h) { return true; }
    }
    moved := false;
  }

  // Whether the incumbent is in a bounded transition.
  method Transition(b: Ballot, t: Tally, ch: Choice) returns (moving: bool)
    ensures moving == InTransition(b, t, ch)
  {
    hide RosterMoved, AssignmentMoved, IncumbentMoves, PeerMoves;
    var allowed := b.g.state.quorumAvailable && b.g.state.term != 0 && IncumbentSelected(t) &&
                   SameRole(b.g.state.leader, WinnerId(ch)) && t.observed <= b.g.state.term;
    var peers := PeerMoved(b);
    moving := allowed && (RosterMoved(b, b.g.electionRoster) || AssignmentMoved(b, b.g.electionAssignment) ||
                          IncumbentMoves(b, t) || peers || b.g.views != []);
  }

  // Counts the votes; the remembered views and the transition are worked out once, before the loop.
  method CountEndorsements(b: Ballot, t: Tally, ch: Choice, digests: Digests, views: seq<Digests>, moving: bool, vouched: bool)
    returns (votes: Votes)
    requires digests == ViewDigests(b, ch) && views == TransitionViews(b, t, ch)
    requires moving == InTransition(b, t, ch) && vouched == IncumbentVouches(b, t, ch)
    ensures votes == CountAll(b, t, ch, b.heartbeats)
  {
    assert vouched ==> t.incumbent.Some?;
    hide Present, ViewDigests, TransitionViews, InTransition, IncumbentVouches, MatchesView, LocalActive;
    var current := if LocalActive(b) && b.allowed then 1 else 0;
    var transition := 0;
    var alternate := [];
    for i := 0 to |b.heartbeats|
      invariant Votes(current, transition, alternate) == CountAll(b, t, ch, b.heartbeats[..i])
    {
      assert b.heartbeats[..i + 1][..i] == b.heartbeats[..i];
      var h := b.heartbeats[i];
      if !Present(b, h) { continue; }
      var endorsesCurrent := h.digest == DigestFor(digests, h.version);
      var endorsesTransition := !endorsesCurrent && MatchesView(views, h.version, h.digest);
      var endorsesIncumbent := !endorsesCurrent && !endorsesTransition && vouched &&
                               h.version == t.incumbent.value.version && h.digest == t.incumbent.value.digest;
      if !endorsesCurrent && !endorsesTransition && !endorsesIncumbent {
        if moving && !vouched && h.complete && h.digest != 0 {
          alternate := alternate + [Vote(h.version, h.digest)];
        }
        continue;
      }
      if endorsesCurrent {
        current := current + 1;
      } else {
        transition := transition + 1;
      }
    }
    assert b.heartbeats[..|b.heartbeats|] == b.heartbeats;
    votes := Votes(current, transition, alternate);
  }

  method JudgeVote(b: Ballot, t: Tally, ch: Choice) returns (o: Outcome)
    ensures o == Judge(b, t, ch)
  {
    hide ViewDigests, InTransition, IncumbentMoves, CountAll, Strongest, ChoiceComplete, KeepEndorsements, ExactShape, PeerFenced, Contested;
    var digests := ViewDigests(b, ch);
    var moving := Transition(b, t, ch);
    var views := [];
    if moving {
      views := b.g.views;
      if digests != b.g.state.digests {
        views := Capture(views, b.g.state.digests);
      }
    }
    MovesHasIncumbent(b, t);
    var vouched := moving && IncumbentMoves(b, t) && t.incumbent.value.termAdmitted &&
                   t.incumbent.value.term <= b.g.state.term && t.incumbent.value.digest != 0;
    var votes := CountEndorsements(b, t, ch, digests, views, moving, vouched);
    var alternate := Strongest(votes.alternate, votes.alternate);
    var transition := if alternate > votes.transition then alternate else votes.transition;
    var required := StrictMajority(b.g.state.expected);
    var peers := PeerIsFenced(b);
    var fenced := Contested(b) && (ExactShape(b) || peers);
    if votes.current >= required {
      views := [];
    }
    var endorsements := votes.current;
    if fenced && (ch.canonical || moving) && ChoiceComplete(b, ch) {
      endorsements := KeepEndorsements(b.g.state.quorumAvailable, b.g.state.leader, b.g.state.term, t.observed, WinnerId(ch),
                                       endorsements, transition, required);
    }
    o := Outcome(required, endorsements, views, fenced,
                 b.g.state.expected != 0 && t.online >= required && (!fenced || endorsements >= required));
  }

  lemma MovesHasIncumbent(b: Ballot, t: Tally)
    ensures IncumbentMoves(b, t) ==> t.incumbent.Some?
  {
  }
}
