/** The rules a group election applies: who may lead, who is preferred, quorum, and terms. */
module LeaderRules {
  import opened Wrappers
  import opened Bytes
  import opened SiteConfiguration
  import opened GroupRoster
  import opened Credentials
  import opened Provisioning

  function RolePenalty(c: Option<Configuration>, siteLeader: string, id: string): nat {
    var owner := c.Some? && c.value.ownerId != "" && id == c.value.ownerId;
    if siteLeader != "" && id == siteLeader then (if owner then 3 else 2) else if owner then 1 else 0
  }

  // An active node other than `id` that could lead, in the same group when one is given.
  predicate Alternative(m: Member, id: string, groupId: Option<string>) {
    && m.occupied && m.id != id && m.membership == Active && m.kind == NamoNode && m.leaderEligible
    && m.profile.committed && (groupId.Some? ==> m.profile.groupId == groupId.value)
  }

  predicate NoAlternative(c: Configuration, id: string, groupId: Option<string>) {
    forall i | 0 <= i < |c.members| :: !Alternative(c.members[i], id, groupId)
  }

  // The owner that also leads the site may lead a group only when nobody else can.
  predicate CombinationAllowed(c: Configuration, siteLeader: string, id: string) {
    if id == "" || siteLeader == "" || id != siteLeader || id != c.ownerId then true
    else
      var m := FindMember(c.members, id);
      m.Some? &&
      NoAlternative(c, id, if m.value.profile.committed && m.value.profile.groupId != "" then Some(m.value.profile.groupId) else None)
  }

  predicate AssignmentAllowed(c: Configuration, groupId: string, siteLeader: string, id: string) {
    var m := FindMember(c.members, id);
    && groupId != "" && id != "" && m.Some? && m.value.membership == Active && m.value.kind == NamoNode
    && m.value.leaderEligible && m.value.profile.committed && m.value.profile.groupId == groupId
    && CombinationAllowed(c, siteLeader, id)
    && (siteLeader != "" && id == siteLeader ==> NoAlternative(c, id, Some(groupId)))
  }

  predicate Preferred(id: string, penalty: nat, current: Option<string>, currentPenalty: nat) {
    current.None? || penalty < currentPenalty || (penalty == currentPenalty && Less(id, current.value))
  }

  // The leader holds an enabled credential for every other active member of the group.
  predicate LeaderComplete(c: Configuration, leader: string, groupId: string, slots: Slots) {
    && ActiveMember(c, leader) && groupId != ""
    && forall i | 0 <= i < |c.members| ::
         var m := c.members[i];
         m.occupied && m.membership == Active && m.id != leader && m.profile.committed && m.profile.groupId == groupId ==>
           Usable(slots, m.id)
  }

  predicate RosterLeaderComplete(r: Roster, leader: string, slots: Slots) {
    && ValidRoster(r) && FindInRoster(r, leader).Some? && FindInRoster(r, leader).value.leaderEligible
    && forall i | 0 <= i < |r.members| :: r.members[i].occupied && r.members[i].id != leader ==> Usable(slots, r.members[i].id)
  }

  function StrictMajority(expected: nat): nat {
    if expected == 0 then 0 else expected / 2 + 1
  }

  function NextTerm(term: U32): U32 {
    if term == 0xFFFF_FFFF then 0xFFFF_FFFF else term + 1
  }

  predicate SameRole(a: string, b: string) {
    a != "" && b != "" && a == b
  }

  // The term of the next leadership, and whether the winner may take it up now.
  function DecideTerm(term: U32, leader: string, suspendedTerm: U32, suspended: string, winner: string, local: bool,
                      winnerTerm: U32, admitted: bool, observed: U32): (U32, bool) {
    var sameCurrent := SameRole(leader, winner);
    var sameSuspended := leader == "" && SameRole(suspended, winner);
    var prior := if suspendedTerm > term then suspendedTerm else term;
    if local then
      if sameCurrent && observed <= term then (if term == 0 then 1 else term, true)
      else if sameSuspended && observed <= suspendedTerm then (if suspendedTerm == 0 then 1 else suspendedTerm, true)
      else if leader == "" && suspended == "" && observed <= term then (if term == 0 then 1 else NextTerm(term), true)
      else (NextTerm(if observed > prior then observed else prior), true)
    else if !admitted then (if prior == 0 then 1 else prior, false)
    else if sameCurrent || sameSuspended then (if winnerTerm >= prior then (winnerTerm, true) else (prior, false))
    else if leader == "" && suspended == "" then (if winnerTerm >= term then (winnerTerm, true) else (term, false))
    else if winnerTerm > prior then (winnerTerm, true)
    else (prior, false)
  }

  // Terms never fall, whoever wins, as long as the observed term includes the current one.
  lemma TermNeverFalls(term: U32, leader: string, suspendedTerm: U32, suspended: string, winner: string, local: bool,
                       winnerTerm: U32, admitted: bool, observed: U32)
    requires observed >= term
    ensures DecideTerm(term, leader, suspendedTerm, suspended, winner, local, winnerTerm, admitted, observed).0 >= term
  {
  }

  // Taking over from another leader, or from a suspended one, needs a later term.
  lemma TakingOverRaises(term: U32, leader: string, suspendedTerm: U32, suspended: string, winner: string, local: bool,
                         winnerTerm: U32, admitted: bool, observed: U32)
    requires DecideTerm(term, leader, suspendedTerm, suspended, winner, local, winnerTerm, admitted, observed).1
    ensures var next := DecideTerm(term, leader, suspendedTerm, suspended, winner, local, winnerTerm, admitted, observed).0;
            && (leader != "" && leader != winner ==> next > term || next == 0xFFFF_FFFF)
            && (leader == "" && suspended != "" && suspended != winner ==> (next > suspendedTerm && next > term) || next == 0xFFFF_FFFF)
  {
  }

  // During a bounded transition, votes for the views just before it may complete the quorum.
  function KeepEndorsements(priorQuorum: bool, leader: string, priorTerm: U32, observed: U32, winner: string,
                            endorsements: nat, transitionVotes: nat, required: nat): nat {
    if !priorQuorum || priorTerm == 0 || !SameRole(leader, winner) || observed > priorTerm ||
       endorsements >= required || transitionVotes == 0 || endorsements + transitionVotes < required then endorsements
    else if endorsements + transitionVotes > 255 then 255
    else endorsements + transitionVotes
  }

  // The digests of one election view, one for each contract version still understood.
  datatype Digests = Digests(modern: U32, compatibility: U32, contract: U32, legacy: U32)

  const NO_DIGESTS := Digests(0, 0, 0, 0)
  const MAX_VIEWS := 3

  function DigestFor(d: Digests, version: nat): U32 {
    if version >= 3 then d.modern else if version == 2 then d.compatibility else if version == 1 then d.contract else d.legacy
  }

  // Remembers a view, forgetting the oldest when there are too many.
  function Capture(views: seq<Digests>, d: Digests): (next: seq<Digests>)
    ensures |views| <= MAX_VIEWS ==> |next| <= MAX_VIEWS
  {
    if d == NO_DIGESTS || d in views then views
    else if |views| < MAX_VIEWS then views + [d]
    else views[1..] + [d]
  }

  predicate MatchesView(views: seq<Digests>, version: nat, digest: U32) {
    exists i | 0 <= i < |views| :: DigestFor(views[i], version) != 0 && DigestFor(views[i], version) == digest
  }

  datatype Vote = Vote(version: nat, digest: U32)

  function CountVotes(votes: seq<Vote>, v: Vote): nat {
    if votes == [] then 0 else CountVotes(votes[..|votes| - 1], v) + if votes[|votes| - 1] == v then 1 else 0
  }

  // The most votes any one digest got.
  function Strongest(votes: seq<Vote>, among: seq<Vote>): nat {
    if among == [] then 0
    else
      var rest := Strongest(votes, among[..|among| - 1]);
      var count := CountVotes(votes, among[|among| - 1]);
      if count > rest then count else rest
  }
}
