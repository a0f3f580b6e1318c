/** The election of a group's leader, as functions of what one node sees. */
module GroupElection {
  import opened Wrappers
  import opened Bytes
  import opened Clock
  import opened Credentials
  import opened SiteConfiguration
  import opened GroupRoster
  import opened GroupMembership
  import opened Provisioning
  import opened LeaderRules

  const HEARTBEATS := 6
  const DEFAULT_LEASE := 6000

  datatype Participant = Participant(id: string, kind: ParticipantType, membership: Membership, eligible: bool)

  datatype Directory = Directory(committed: bool, groups: seq<DirectoryGroup>)

  datatype ViewItem = ViewItem(id: string, qualifier: U64, complete: bool)

  // The digest functions over an election view: plain, without credentials, and with a winner.
  datatype Hashes = Hashes(digest: (seq<ViewItem>, string) -> U32, contract: (seq<ViewItem>, string) -> U32,
                           winner: (seq<ViewItem>, string, string) -> U32, assignment: DirectoryGroup -> U64)

  // What an update is given.  `readyGroup` is the group of a participant's readiness record when
  // that is ready; `valid` is the outcome of validating the configuration.
  datatype World = World(node: string, siteId: string, participants: seq<Option<Participant>>, readyGroup: string -> Option<string>,
                         configuration: Option<Configuration>, roster: Option<Roster>, credentials: Option<Slots>,
                         directory: Option<Directory>, siteLeader: string, valid: bool, hashes: Hashes, now: U32)

  datatype Heartbeat = Heartbeat(occupied: bool, id: string, bootId: string, sequence: U32, term: U32, expiresAt: U32,
                                 termAdmitted: bool, rosterRevision: U32, assignmentRevision: U32, digest: U32,
                                 version: Byte, complete: bool)

  const NO_HEARTBEAT := Heartbeat(false, "", "", 0, 0, 0, false, 0, 0, 0, 3, true)

  datatype GroupState = GroupState(groupId: string, leader: string, term: U32, assignmentRevision: U32, leaseExpiresAt: U32,
                                   expected: nat, online: nat, required: nat, configured: bool, localLeader: bool,
                                   quorumAvailable: bool, canonicalAssignment: bool, complete: bool, digests: Digests,
                                   endorsements: nat, fenced: bool)

  datatype GroupSlot = GroupSlot(occupied: bool, seen: bool, suspended: string, suspendedTerm: U32, previousExpected: nat,
                                 previousOnline: nat, electionRoster: U32, electionAssignment: U32, views: seq<Digests>,
                                 state: GroupState)

  const NO_STATE := GroupState("", "", 0, 0, 0, 0, 0, 0, false, true, false, false, false, NO_DIGESTS, 0, false)
  const NO_GROUP := GroupSlot(false, false, "", 0, 0, 0, 0, 0, [], NO_STATE)

  // One election: the world with the configuration and roster that apply, the membership, the
  // heartbeats, the group before it, and whether this node may stand.
  datatype Ballot = Ballot(w: World, c: Option<Configuration>, roster: Option<Roster>, view: MembershipView,
                           heartbeats: seq<Heartbeat>, g: GroupSlot, allowed: bool)

  function FindParticipant(participants: seq<Option<Participant>>, id: string): Option<Participant> {
    if participants == [] || id == "" then None
    else if participants[0].Some? && participants[0].value.id == id then participants[0]
    else FindParticipant(participants[1..], id)
  }

  // ---------------------------------------------------------------- who is who

  function AssignedGroup(w: World, c: Option<Configuration>, view: MembershipView, id: string): Option<string> {
    if view.valid && Contains(view, id) then Some(view.groupId)
    else
      var m := if c.Some? then FindMember(c.value.members, id) else None;
      if m.Some? && m.value.profile.committed && m.value.profile.groupId != "" then Some(m.value.profile.groupId)
      else w.readyGroup(id)
  }

  predicate ActiveIn(p: Option<Participant>, c: Option<Configuration>, view: MembershipView, id: string) {
    if p.Some? && p.value.membership == Revoked then false
    else if view.valid then Contains(view, id)
    else if c.Some? then MemberActive(c.value, id)
    else p.Some? && p.value.membership == Active
  }

  predicate MemberActive(c: Configuration, id: string) {
    var m := FindMember(c.members, id);
    m.Some? && m.value.membership == Active
  }

  predicate ListedEligible(members: seq<GroupMember>, id: string) {
    if members == [] then false else if members[0].id == id then members[0].eligible else ListedEligible(members[1..], id)
  }

  predicate EligibleIn(p: Option<Participant>, c: Option<Configuration>, view: MembershipView, id: string) {
    && ActiveIn(p, c, view, id)
    && if view.valid then id != "" && ListedEligible(view.members, id)
       else if c.Some? then EligibleMember(c.value, id)
       else p.Some? && p.value.kind == NamoNode && p.value.eligible
  }

  predicate IsActive(b: Ballot, id: string) {
    ActiveIn(FindParticipant(b.w.participants, id), b.c, b.view, id)
  }

  predicate Eligible(b: Ballot, id: string) {
    EligibleIn(FindParticipant(b.w.participants, id), b.c, b.view, id)
  }

  predicate InGroup(b: Ballot, id: string) {
    AssignedGroup(b.w, b.c, b.view, id) == Some(b.g.state.groupId)
  }

  predicate Live(b: Ballot, h: Heartbeat) {
    h.occupied && !TimeReached(b.w.now, h.expiresAt)
  }

  // A live heartbeat of an active member of the group.
  predicate Present(b: Ballot, h: Heartbeat) {
    Live(b, h) && IsActive(b, h.id) && (b.view.valid ==> Contains(b.view, h.id)) && InGroup(b, h.id)
  }

  predicate CredentialEnabled(b: Ballot, id: string) {
    b.w.credentials.Some? ==> Usable(b.w.credentials.value, id)
  }

  predicate MayCombine(b: Ballot, id: string) {
    !b.g.state.configured || b.c.None? || CombinationAllowed(b.c.value, b.w.siteLeader, id)
  }

  function Penalty(b: Ballot, id: string): nat {
    RolePenalty(b.c, b.w.siteLeader, id)
  }

  predicate LeaseActive(b: Ballot) {
    b.g.state.leader != "" && !TimeReached(b.w.now, b.g.state.leaseExpiresAt)
  }

  // ---------------------------------------------------------------- this node

  predicate LocalActive(b: Ballot) {
    (!b.view.valid && b.c.None?) || ActiveIn(None, b.c, b.view, b.w.node)
  }

  predicate LocalEligible(b: Ballot) {
    && LocalActive(b) && b.allowed
    && (if b.view.valid then b.w.node != "" && ListedEligible(b.view.members, b.w.node)
        else b.c.None? || EligibleMember(b.c.value, b.w.node))
    && MayCombine(b, b.w.node)
  }

  predicate LocalGroupComplete(b: Ballot) {
    !b.g.state.configured || b.c.None? || b.w.credentials.None? ||
    (if b.roster.Some? then RosterLeaderComplete(b.roster.value, b.w.node, b.w.credentials.value)
     else LeaderComplete(b.c.value, b.w.node, b.g.state.groupId, b.w.credentials.value))
  }

  predicate LocalSiteComplete(b: Ballot) {
    !b.g.state.configured || b.c.None? || b.w.credentials.None? ||
    Complete(Site(b.c.value, if b.w.directory.Some? then b.w.directory.value.groups else [], b.w.siteLeader, b.w.valid),
             b.w.node, b.w.credentials.value)
  }

  predicate LocalReady(b: Ballot) {
    LocalEligible(b) && LocalSiteComplete(b) && LocalGroupComplete(b)
  }

  // ---------------------------------------------------------------- the candidates

  datatype Tally = Tally(winner: Option<string>, penalty: nat, heartbeat: Option<Heartbeat>, incumbentReady: bool,
                         incumbent: Option<Heartbeat>, incumbentPenalty: nat, online: nat, observed: U32)

  function FirstTally(b: Ballot): Tally {
    var penalty := if LocalEligible(b) then Penalty(b, b.w.node) else 0;
    Tally(if LocalReady(b) then Some(b.w.node) else None, penalty, None,
          b.c.Some? && b.g.state.configured && LeaseActive(b) && LocalReady(b) && b.g.state.leader == b.w.node,
          None, penalty, if LocalActive(b) && b.allowed then 1 else 0, b.g.state.term)
  }

  // A remote sender that may lead.
  predicate MayLead(b: Ballot, h: Heartbeat) {
    Eligible(b, h.id) && MayCombine(b, h.id) && h.complete && CredentialEnabled(b, h.id)
  }

  function TallyOne(b: Ballot, t: Tally, h: Heartbeat): Tally {
    if !Present(b, h) then t
    else if !MayLead(b, h) then t.(online := t.online + 1)
    else
      var penalty := Penalty(b, h.id);
      var incumbent := b.c.Some? && b.g.state.configured && LeaseActive(b) && b.g.state.leader == h.id;
      var better := Preferred(h.id, penalty, t.winner, t.penalty);
      Tally(if better then Some(h.id) else t.winner, if better then penalty else t.penalty,
            if better then Some(h) else t.heartbeat,
            t.incumbentReady || incumbent, if incumbent then Some(h) else t.incumbent,
            if incumbent then penalty else t.incumbentPenalty, t.online + 1,
            if h.termAdmitted && h.term > t.observed then h.term else t.observed)
  }

  function TallyAll(b: Ballot, heartbeats: seq<Heartbeat>): Tally {
    if heartbeats == [] then FirstTally(b)
    else TallyOne(b, TallyAll(b, heartbeats[..|heartbeats| - 1]), heartbeats[|heartbeats| - 1])
  }

  // ---------------------------------------------------------------- the overriding stages

  // Who won so far: `heartbeat` is absent for this node.
  datatype Choice = Choice(winner: Option<string>, heartbeat: Option<Heartbeat>, canonical: bool)

  function FindGroup(groups: seq<DirectoryGroup>, groupId: string): Option<DirectoryGroup> {
    if groups == [] then None
    else if groups[0].occupied && groups[0].groupId == groupId then Some(groups[0])
    else FindGroup(groups[1..], groupId)
  }

  function DirectoryEntry(b: Ballot): Option<DirectoryGroup> {
    if b.w.directory.Some? && b.w.directory.value.committed
    then FindGroup(b.w.directory.value.groups, b.g.state.groupId) else None
  }

  predicate ExactShape(b: Ballot) {
    var d := DirectoryEntry(b);
    d.Some? && d.value.revision != 0 && b.g.state.expected != 0 && d.value.memberCount == b.g.state.expected
  }

  predicate Expanding(b: Ballot) {
    var d := DirectoryEntry(b);
    d.Some? && d.value.revision != 0 && d.value.memberCount != 0 && d.value.memberCount < b.g.state.expected
  }

  // The first live heartbeat of a sender, with complete credentials when asked for.
  function LiveOf(b: Ballot, heartbeats: seq<Heartbeat>, id: string, complete: bool): (h: Option<Heartbeat>)
    ensures h.Some? ==> h.value in heartbeats && Live(b, h.value) && h.value.id == id && (complete ==> h.value.complete)
  {
    if heartbeats == [] then None
    else if Live(b, heartbeats[0]) && heartbeats[0].id == id && (complete ==> heartbeats[0].complete) then Some(heartbeats[0])
    else LiveOf(b, heartbeats[1..], id, complete)
  }

  predicate MayAssign(b: Ballot, id: string) {
    b.c.None? || AssignmentAllowed(b.c.value, b.g.state.groupId, b.w.siteLeader, id)
  }

  // The leader the committed directory assigns, if it can lead.
  function DirectoryStage(b: Ballot, ch: Choice): Choice {
    if !ExactShape(b) && !Expanding(b) then ch
    else
      var named := DirectoryEntry(b).value.leaderId;
      if named == b.w.node then
        if LocalReady(b) && MayAssign(b, b.w.node) then Choice(Some(b.w.node), None, ExactShape(b)) else ch
      else
        var h := LiveOf(b, b.heartbeats, named, false);
        if h.Some? && Eligible(b, named) && MayAssign(b, named) && InGroup(b, named) && h.value.complete &&
           CredentialEnabled(b, named)
        then Choice(Some(named), h, ExactShape(b)) else ch
  }

  predicate IncumbentSelected(t: Tally) {
    t.incumbentReady && t.incumbentPenalty < 2
  }

  predicate AssignedTo(b: Ballot, winner: Option<string>) {
    ExactShape(b) && winner.Some? && DirectoryEntry(b).value.leaderId == winner.value
  }

  // The current leader keeps its place while it can.
  function IncumbentStage(b: Ballot, t: Tally, ch: Choice): Choice {
    if !IncumbentSelected(t) then ch
    else Choice(Some(b.g.state.leader), t.incumbent, AssignedTo(b, Some(b.g.state.leader)))
  }

  function Qualifier(b: Ballot): U64 {
    if ExactShape(b) then b.w.hashes.assignment(DirectoryEntry(b).value) else 0
  }

  // The present senders, as items of the observed view.
  function Seen(b: Ballot, heartbeats: seq<Heartbeat>): seq<ViewItem> {
    if heartbeats == [] then []
    else
      var h := heartbeats[|heartbeats| - 1];
      Seen(b, heartbeats[..|heartbeats| - 1]) + if Present(b, h) then [ViewItem(h.id, Qualifier(b), h.complete)] else []
  }

  function ObservedView(b: Ballot): seq<ViewItem> {
    (if LocalActive(b) && b.allowed then [ViewItem(b.w.node, Qualifier(b), LocalSiteComplete(b))] else []) +
    Seen(b, b.heartbeats)
  }

  predicate Bounded(b: Ballot) {
    b.view.valid && b.g.state.configured
  }

  function RosterItems(b: Ballot, members: seq<GroupMember>): seq<ViewItem> {
    if members == [] then []
    else RosterItems(b, members[..|members| - 1]) +
         [ViewItem(members[|members| - 1].id, if b.c.Some? then b.c.value.rosterRevision else 0, true)]
  }

  // The view elections are now agreed on: the fixed roster of the group.
  function ContractView(b: Ballot): seq<ViewItem> {
    if Bounded(b) then RosterItems(b, b.view.members) else []
  }

  predicate VotesIn(b: Ballot, h: Heartbeat, version: nat) {
    Live(b, h) && h.version == version && h.complete && Contains(b.view, h.id)
  }

  function Support(b: Ballot, heartbeats: seq<Heartbeat>, version: nat, digest: U32): nat {
    if heartbeats == [] then 0
    else
      var h := heartbeats[|heartbeats| - 1];
      Support(b, heartbeats[..|heartbeats| - 1], version, digest) +
      if VotesIn(b, h, version) && h.digest == digest then 1 else 0
  }

  // The first digest of one version that a majority of the group supports.
  function EndorsedDigest(b: Ballot, heartbeats: seq<Heartbeat>, version: nat): U32 {
    if heartbeats == [] then 0
    else
      var h := heartbeats[0];
      if VotesIn(b, h, version) && h.digest != 0 &&
         Support(b, b.heartbeats, version, h.digest) >= StrictMajority(b.g.state.expected) then h.digest
      else EndorsedDigest(b, heartbeats[1..], version)
  }

  // The heartbeat by which a member can lead once endorsed.
  function EndorsedHeartbeat(b: Ballot, id: string): Option<Heartbeat> {
    var h := LiveOf(b, b.heartbeats, id, true);
    if h.Some? && Eligible(b, id) && (b.c.Some? ==> CombinationAllowed(b.c.value, b.w.siteLeader, id)) && InGroup(b, id) &&
       CredentialEnabled(b, id) then h else None
  }

  predicate NamedBy(b: Ballot, m: GroupMember, version: nat, digest: U32) {
    && m.eligible && Penalty(b, m.id) < 2
    && b.w.hashes.winner(if version >= 3 then ContractView(b) else ObservedView(b), b.g.state.groupId, m.id) == digest
  }

  // The first member that the endorsed digest names and that can lead.
  function EndorsedMember(b: Ballot, members: seq<GroupMember>, version: nat, digest: U32): Option<Choice> {
    if members == [] then None
    else
      var m := members[0];
      if NamedBy(b, m, version, digest) && m.id == b.w.node && LocalReady(b) then Some(Choice(Some(m.id), None, false))
      else if NamedBy(b, m, version, digest) && m.id != b.w.node && EndorsedHeartbeat(b, m.id).Some? then
        Some(Choice(Some(m.id), EndorsedHeartbeat(b, m.id), false))
      else EndorsedMember(b, members[1..], version, digest)
  }

  // A winner that a majority of the group already endorsed.
  function EndorsedStage(b: Ballot, t: Tally, ch: Choice): Choice {
    if !Bounded(b) || IncumbentSelected(t) || b.g.state.expected <= 1 then ch
    else
      var third := EndorsedDigest(b, b.heartbeats, 3);
      var second := if third != 0 then 0 else EndorsedDigest(b, b.heartbeats, 2);
      var digest, version := if third != 0 then third else second, if third != 0 then 3 else 2;
      if digest == 0 then ch
      else
        var chosen := EndorsedMember(b, b.view.members, version, digest);
        var next := if chosen.Some? then chosen.value else ch;
        next.(canonical := AssignedTo(b, next.winner))
  }

  function Elected(b: Ballot): Choice {
    var t := TallyAll(b, b.heartbeats);
    EndorsedStage(b, t, IncumbentStage(b, t, DirectoryStage(b, Choice(t.winner, t.heartbeat, false))))
  }

  // ---------------------------------------------------------------- the fence

  function WinnerId(ch: Choice): string {
    if ch.winner.Some? then ch.winner.value else ""
  }

  function ViewDigests(b: Ballot, ch: Choice): Digests {
    var seen, group := ObservedView(b), b.g.state.groupId;
    Digests(b.w.hashes.winner(if Bounded(b) then ContractView(b) else seen, group, WinnerId(ch)),
            b.w.hashes.winner(seen, group, WinnerId(ch)),
            b.w.hashes.contract(seen, group), b.w.hashes.digest(seen, group))
  }

  function AssignmentRevision(b: Ballot): U32 {
    if ExactShape(b) then DirectoryEntry(b).value.revision else 0
  }

  predicate ChoiceComplete(b: Ballot, ch: Choice) {
    ch.winner.Some? &&
    (if ch.heartbeat.None? then LocalGroupComplete(b)
     else ch.heartbeat.value.complete && b.w.credentials.Some? && Find(b.w.credentials.value, ch.winner.value).Some?)
  }

  predicate RosterMoved(b: Ballot, revision: U32) {
    b.c.Some? && revision != 0 && revision != b.c.value.rosterRevision
  }

  predicate AssignmentMoved(b: Ballot, revision: U32) {
    revision != 0 && AssignmentRevision(b) != 0 && revision != AssignmentRevision(b)
  }

  predicate RevisionsDiffer(b: Ballot, h: Heartbeat) {
    RosterMoved(b, h.rosterRevision) || AssignmentMoved(b, h.assignmentRevision)
  }

  predicate IncumbentMoves(b: Ballot, t: Tally) {
    t.incumbent.Some? && b.c.Some? && RevisionsDiffer(b, t.incumbent.value)
  }

  predicate PeerMoves(b: Ballot) {
    b.c.Some? && exists i | 0 <= i < |b.heartbeats| ::
      Live(b, b.heartbeats[i]) && b.heartbeats[i].complete && RevisionsDiffer(b, b.heartbeats[i])
  }

  // The incumbent stays while its peers are between two revisions of the roster or directory.
  predicate InTransition(b: Ballot, t: Tally, ch: Choice) {
    && b.g.state.quorumAvailable && b.g.state.term != 0 && IncumbentSelected(t) && SameRole(b.g.state.leader, WinnerId(ch))
    && t.observed <= b.g.state.term
    && (RosterMoved(b, b.g.electionRoster) || AssignmentMoved(b, b.g.electionAssignment) || IncumbentMoves(b, t) ||
        PeerMoves(b) || b.g.views != [])
  }

  function TransitionViews(b: Ballot, t: Tally, ch: Choice): seq<Digests> {
    if !InTransition(b, t, ch) then []
    else if ViewDigests(b, ch) != b.g.state.digests then Capture(b.g.views, b.g.state.digests)
    else b.g.views
  }

  predicate IncumbentVouches(b: Ballot, t: Tally, ch: Choice) {
    && InTransition(b, t, ch) && IncumbentMoves(b, t) && t.incumbent.value.termAdmitted
    && t.incumbent.value.term <= b.g.state.term && t.incumbent.value.digest != 0
  }

  datatype Votes = Votes(current: nat, transition: nat, alternate: seq<Vote>)

  function CountOne(b: Ballot, t: Tally, ch: Choice, v: Votes, h: Heartbeat): Votes {
    if !Present(b, h) then v
    else if h.digest == DigestFor(ViewDigests(b, ch), h.version) then v.(current := v.current + 1)
    else if MatchesView(TransitionViews(b, t, ch), h.version, h.digest) then v.(transition := v.transition + 1)
    else if IncumbentVouches(b, t, ch) && h.version == t.incumbent.value.version && h.digest == t.incumbent.value.digest then
      v.(transition := v.transition + 1)
    else if InTransition(b, t, ch) && !IncumbentVouches(b, t, ch) && h.complete && h.digest != 0 then
      v.(alternate := v.alternate + [Vote(h.version, h.digest)])
    else v
  }

  function CountAll(b: Ballot, t: Tally, ch: Choice, heartbeats: seq<Heartbeat>): Votes {
    if heartbeats == [] then Votes(if LocalActive(b) && b.allowed then 1 else 0, 0, [])
    else CountOne(b, t, ch, CountAll(b, t, ch, heartbeats[..|heartbeats| - 1]), heartbeats[|heartbeats| - 1])
  }

  predicate PeerFenced(b: Ballot) {
    exists i | 0 <= i < |b.heartbeats| :: Present(b, b.heartbeats[i]) && b.heartbeats[i].digest != 0
  }

  predicate Contested(b: Ballot) {
    b.c.Some? && b.g.state.configured && b.g.state.expected > 1
  }

  // How the vote ended.
  datatype Outcome = Outcome(required: nat, endorsements: nat, views: seq<Digests>, fenced: bool, quorum: bool)

  function Judge(b: Ballot, t: Tally, ch: Choice): Outcome {
    var votes := CountAll(b, t, ch, b.heartbeats);
    var alternate := Strongest(votes.alternate, votes.alternate);
    var transition := if alternate > votes.transition then alternate else votes.transition;
    var required := StrictMajority(b.g.state.expected);
    var fenced := Contested(b) && (ExactShape(b) || PeerFenced(b));
    var endorsements :=
      if fenced && (ch.canonical || InTransition(b, t, ch)) && ChoiceComplete(b, ch) then
        KeepEndorsements(b.g.state.quorumAvailable, b.g.state.leader, b.g.state.term, t.observed, WinnerId(ch),
                         votes.current, transition, required)
      else votes.current;
    Outcome(required, endorsements, if votes.current >= required then [] else TransitionViews(b, t, ch), fenced,
            b.g.state.expected != 0 && t.online >= required && (!fenced || endorsements >= required))
  }

  // ---------------------------------------------------------------- the result

  // The group after the vote, before anyone takes the lead.
  function Voted(b: Ballot, t: Tally, ch: Choice): GroupSlot {
    var o := Judge(b, t, ch);
    b.g.(views := o.views,
         state := b.g.state.(assignmentRevision := AssignmentRevision(b), canonicalAssignment := ch.canonical,
                             complete := ChoiceComplete(b, ch), required := o.required, quorumAvailable := o.quorum,
                             digests := ViewDigests(b, ch), endorsements := o.endorsements, fenced := o.fenced))
  }

  // Nobody leads: the last leader is remembered with its term.
  function StandDown(g: GroupSlot, suspendedTerm: U32, online: nat, now: U32): GroupSlot {
    var s := g.state;
    g.(suspended := if s.leader != "" then s.leader else g.suspended,
       suspendedTerm := if s.leader != "" then suspendedTerm else g.suspendedTerm,
       state := s.(leader := "", localLeader := false, leaseExpiresAt := now, online := online, complete := false,
                   canonicalAssignment := false))
  }

  // The winner takes the lead, if its term lets it.
  function TakeLead(b: Ballot, g: GroupSlot, t: Tally, winner: string, heartbeat: Option<Heartbeat>): GroupSlot {
    var admitted := heartbeat.Some? && heartbeat.value.termAdmitted;
    var (term, ready) := DecideTerm(g.state.term, g.state.leader, g.suspendedTerm, g.suspended, winner, heartbeat.None?,
                                    if admitted then heartbeat.value.term else 0, admitted, t.observed);
    if !ready then
      StandDown(g.(state := g.state.(term := term, quorumAvailable := false)), g.state.term, t.online, b.w.now)
    else
      g.(suspended := "", suspendedTerm := 0,
         state := g.state.(term := term, leader := winner, localLeader := heartbeat.None?,
                           leaseExpiresAt := if heartbeat.None? then Wrap32(b.w.now + DEFAULT_LEASE) else heartbeat.value.expiresAt,
                           online := t.online))
  }

  function Settle(b: Ballot, t: Tally, ch: Choice): GroupSlot {
    var g := Voted(b, t, ch);
    if Contested(b) && !g.state.quorumAvailable then
      var term := if g.state.term == 0 then 1 else g.state.term;
      StandDown(g.(state := g.state.(term := term)), term, t.online, b.w.now)
    else if ch.winner.None? then StandDown(g, g.state.term, t.online, b.w.now)
    else TakeLead(b, g, t, ch.winner.value, ch.heartbeat)
  }

  function Elect(b: Ballot): GroupSlot {
    Settle(b, TallyAll(b, b.heartbeats), Elected(b))
  }
}
