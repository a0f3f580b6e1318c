/** The group coordinator's two operations, as functions of its state. */
module GroupCoordination {
  import opened Wrappers
  import opened Bytes
  import opened Clock
  import opened SiteConfiguration
  import opened GroupRoster
  import opened GroupMembership
  import opened LeaderRules
  import opened GroupElection

  const MIN_LEASE := 2000
  const MAX_LEASE := 15000
  const MAX_BOOT_ID := 48

  // One group, the heartbeats of its other members, the membership they are bounded by, and a
  // counter of changes.
  datatype Coord = Coord(group: GroupSlot, heartbeats: seq<Heartbeat>, view: MembershipView, generation: U32)

  function NoHeartbeats(n: nat): (s: seq<Heartbeat>)
    ensures |s| == n && forall i | 0 <= i < n :: s[i] == NO_HEARTBEAT
  {
    seq(n, _ => NO_HEARTBEAT)
  }

  const CLEARED := Coord(NO_GROUP, NoHeartbeats(HEARTBEATS), NO_VIEW, 0)

  predicate ValidName(text: string, most: nat) {
    0 < |text| <= most
  }

  // ---------------------------------------------------------------- update

  // The configuration, when it is committed and for this site.
  function Canonical(w: World): Option<Configuration> {
    if w.configuration.Some? && w.configuration.value.rosterCommitted && w.configuration.value.siteId == w.siteId
    then w.configuration else None
  }

  // The roster belongs to the configuration's current revision and lists the node.
  predicate RosterCurrent(r: Roster, c: Configuration, node: string) {
    var m := FindMember(c.members, node);
    && ValidRoster(r) && c.rosterCommitted && r.groupId != "" && r.siteId == c.siteId
    && node != "" && r.revision == c.rosterRevision
    && m.Some? && m.value.membership == Active && m.value.kind == NamoNode && m.value.profile.committed
    && m.value.profile.groupId == r.groupId && m.value.profile.spaceId == r.spaceId
    && FindInRoster(r, node).Some?
  }

  function LiveRoster(w: World): Option<Roster> {
    if w.roster.Some? && Canonical(w).Some? && RosterCurrent(w.roster.value, Canonical(w).value, w.node) then w.roster else None
  }

  function NextView(w: World): MembershipView {
    if LiveRoster(w).Some? then RosterView(LiveRoster(w), w.node).0
    else
      var c := Canonical(w);
      DirectView(if c.Some? && MemberActive(c.value, w.node) then c else None, w.node).0
  }

  function NewGroup(groupId: string, configured: bool): GroupSlot {
    NO_GROUP.(occupied := true, state := NO_STATE.(groupId := groupId, configured := configured))
  }

  // The slot for a group: its own, a free one, or one whose group was not seen in this update.
  function EnsureGroup(g: GroupSlot, groupId: string, configured: bool): (GroupSlot, bool) {
    if g.occupied && g.state.groupId == groupId then (g.(state := g.state.(configured := configured)), true)
    else if !g.occupied || !g.seen then (NewGroup(groupId, configured), true)
    else (g, false)
  }

  function Unsee(g: GroupSlot): GroupSlot {
    if !g.occupied then g
    else g.(seen := false, previousExpected := g.state.expected, previousOnline := g.state.online,
            state := g.state.(expected := 0, online := 0))
  }

  // Without a bounded membership: the one group the ready participants agree on, if they do.
  function AgreedGroup(w: World, c: Option<Configuration>, participants: seq<Option<Participant>>, chosen: Option<string>): Option<string> {
    if participants == [] then chosen
    else
      var p := participants[0];
      if p.None? || p.value.membership != Active || w.readyGroup(p.value.id).None? then AgreedGroup(w, c, participants[1..], chosen)
      else
        var group := AssignedGroup(w, c, NO_VIEW, p.value.id);
        if group.None? || group.value == "" then AgreedGroup(w, c, participants[1..], chosen)
        else if chosen.None? || chosen == group then AgreedGroup(w, c, participants[1..], group)
        else None
  }

  function SelectedGroup(w: World, c: Option<Configuration>): Option<string> {
    var m := if c.Some? then FindMember(c.value.members, w.node) else None;
    if m.Some? && m.value.profile.committed && m.value.profile.groupId != "" then Some(m.value.profile.groupId)
    else AgreedGroup(w, c, w.participants, None)
  }

  predicate CountsAsPeer(w: World, c: Option<Configuration>, view: MembershipView, p: Option<Participant>, selected: Option<string>) {
    && p.Some? && p.value.membership == Active && (c.Some? ==> MemberActive(c.value, p.value.id))
    && w.readyGroup(p.value.id).Some? && selected.Some? && AssignedGroup(w, c, view, p.value.id) == selected
  }

  function GatherPeers(w: World, c: Option<Configuration>, view: MembershipView, participants: seq<Option<Participant>>,
                       selected: Option<string>, g: GroupSlot, found: bool): (GroupSlot, bool) {
    if participants == [] then (g, found)
    else if !CountsAsPeer(w, c, view, participants[0], selected) then GatherPeers(w, c, view, participants[1..], selected, g, found)
    else
      var (slot, ok) := EnsureGroup(g, selected.value, true);
      if !ok then GatherPeers(w, c, view, participants[1..], selected, slot, found)
      else
        GatherPeers(w, c, view, participants[1..], selected,
                    slot.(seen := true, state := slot.state.(expected := slot.state.expected + 1)), true)
  }

  function Standalone(g: GroupSlot): GroupSlot {
    var (slot, ok) := EnsureGroup(g, "", false);
    if ok then slot.(seen := true, state := slot.state.(expected := 1, online := 1)) else slot
  }

  // Which group this node takes part in, and how many members it expects.
  function OpenScope(w: World, view: MembershipView, g: GroupSlot): GroupSlot {
    if view.valid && !view.admitted then g
    else if view.valid then
      var (slot, ok) := EnsureGroup(g, view.groupId, true);
      if ok then slot.(seen := true, state := slot.state.(expected := |view.members|, online := 1)) else Standalone(slot)
    else
      var c := Canonical(w);
      var (slot, found) := GatherPeers(w, c, view, w.participants, SelectedGroup(w, c), g, false);
      if !found then Standalone(slot)
      else if slot.occupied && slot.seen && slot.state.configured then
        slot.(state := slot.state.(expected := slot.state.expected + 1, online := slot.state.online + 1))
      else slot
  }

  // A heartbeat that no longer counts for anything.
  predicate Lapsed(w: World, c: Option<Configuration>, view: MembershipView, h: Heartbeat) {
    || !ActiveIn(FindParticipant(w.participants, h.id), c, view, h.id)
    || (view.valid && !Contains(view, h.id))
    || (!(c.Some? && AssignedGroup(w, c, view, h.id).Some?) && w.readyGroup(h.id).None?)
    || TimeReached(w.now, h.expiresAt)
  }

  function Kept(w: World, c: Option<Configuration>, view: MembershipView, h: Heartbeat): Heartbeat {
    if h.occupied && Lapsed(w, c, view, h) then NO_HEARTBEAT else h
  }

  function Reconciled(w: World, c: Option<Configuration>, view: MembershipView, heartbeats: seq<Heartbeat>): (r: seq<Heartbeat>)
    ensures |r| == |heartbeats| && forall i | 0 <= i < |r| :: r[i] == Kept(w, c, view, heartbeats[i])
  {
    seq(|heartbeats|, i requires 0 <= i < |heartbeats| => Kept(w, c, view, heartbeats[i]))
  }

  // The node's own group.
  predicate IsLocalGroup(w: World, c: Option<Configuration>, view: MembershipView, g: GroupSlot) {
    if view.valid then view.admitted && Contains(view, w.node) && g.occupied && g.state.groupId == view.groupId
    else
      var m := if c.Some? then FindMember(c.value.members, w.node) else None;
      g.occupied && g.state.configured &&
      (m.Some? && m.value.profile.committed && m.value.profile.groupId != "" ==> g.state.groupId == m.value.profile.groupId)
  }

  function BallotOf(w: World, view: MembershipView, heartbeats: seq<Heartbeat>, g: GroupSlot): Ballot {
    Ballot(w, Canonical(w), LiveRoster(w), view, heartbeats, g,
           !g.state.configured || IsLocalGroup(w, Canonical(w), view, g))
  }

  function AfterElection(b: Ballot): GroupSlot {
    var g := Elect(b);
    g.(electionRoster := if b.c.Some? then b.c.value.rosterRevision else 0, electionAssignment := g.state.assignmentRevision)
  }

  predicate Noticed(before: GroupSlot, after: GroupSlot) {
    || after.previousExpected != after.state.expected || after.previousOnline != after.state.online
    || before.state.term != after.state.term || before.state.localLeader != after.state.localLeader
    || before.state.leader != after.state.leader
  }

  // The group once its scope is resolved; a group no longer seen is dropped.
  function Scoped(s: Coord, w: World): GroupSlot {
    var g := OpenScope(w, NextView(w), Unsee(s.group));
    if g.occupied && !g.seen then NO_GROUP else g
  }

  predicate ScopeDropped(s: Coord, w: World) {
    var g := OpenScope(w, NextView(w), Unsee(s.group));
    g.occupied && !g.seen
  }

  function Updated(s: Coord, w: World): Coord {
    if !ValidName(w.node, MAX_ID) then s
    else
      var view := NextView(w);
      var g := Scoped(s, w);
      var heartbeats := Reconciled(w, Canonical(w), view, s.heartbeats);
      var elected := if g.occupied && g.seen then AfterElection(BallotOf(w, view, heartbeats, g)) else g;
      var changed := view != s.view || ScopeDropped(s, w) || (g.occupied && g.seen && Noticed(g, elected));
      Coord(elected, heartbeats, view, if changed || s.generation == 0 then Wrap32(s.generation + 1) else s.generation)
  }

  // ---------------------------------------------------------------- heartbeats

  datatype Beat = Beat(id: string, groupId: string, bootId: string, sequence: U32, term: U32, lease: U32, age: U32,
                       rosterRevision: U32, assignmentRevision: U32, digest: U32, version: Byte, complete: bool)

  datatype BeatResult =
    | BeatOk | BeatInvalid | UnknownParticipant | ParticipantInactive | GroupMismatch | StaleTerm | BeatExpired | Repeated | NoRoom

  function HeartbeatIndex(heartbeats: seq<Heartbeat>, id: string): (i: nat)
    ensures i <= |heartbeats|
    ensures i < |heartbeats| ==> heartbeats[i].occupied && heartbeats[i].id == id
    ensures forall j | 0 <= j < i :: !(heartbeats[j].occupied && heartbeats[j].id == id)
  {
    if heartbeats == [] || (heartbeats[0].occupied && heartbeats[0].id == id) then 0 else 1 + HeartbeatIndex(heartbeats[1..], id)
  }

  function FreeIndex(heartbeats: seq<Heartbeat>): (i: nat)
    ensures i <= |heartbeats| && (i < |heartbeats| ==> !heartbeats[i].occupied)
    ensures forall j | 0 <= j < i :: heartbeats[j].occupied
  {
    if heartbeats == [] || !heartbeats[0].occupied then 0 else 1 + FreeIndex(heartbeats[1..])
  }

  // The slot for a sender: its own, else a free one; the number of slots when there is none.
  function SlotFor(heartbeats: seq<Heartbeat>, id: string): (i: nat)
    ensures i <= |heartbeats|
  {
    if HeartbeatIndex(heartbeats, id) < |heartbeats| then HeartbeatIndex(heartbeats, id) else FreeIndex(heartbeats)
  }

  predicate ValidBeat(h: Beat) {
    && ValidName(h.id, MAX_ID) && ValidName(h.groupId, MAX_ASSIGNMENT_ID) && ValidName(h.bootId, MAX_BOOT_ID)
    && h.sequence != 0 && h.term != 0 && MIN_LEASE <= h.lease <= MAX_LEASE
  }

  // The current leader, under its lease, sends a term it has already passed.
  predicate StaleLeader(s: Coord, w: World, c: Option<Configuration>, h: Beat) {
    && EligibleIn(FindParticipant(w.participants, h.id), c, s.view, h.id)
    && s.group.state.leader != "" && s.group.state.leader == h.id && h.term < s.group.state.term
    && !TimeReached(w.now, s.group.state.leaseExpiresAt)
  }

  function Stored(s: Coord, w: World, c: Option<Configuration>, h: Beat): Heartbeat
    requires h.age <= h.lease
  {
    Heartbeat(true, h.id, h.bootId, h.sequence, h.term, Wrap32(w.now + (h.lease - h.age)), !StaleLeader(s, w, c, h),
              h.rosterRevision, h.assignmentRevision, h.digest, h.version, h.complete)
  }

  // Why a heartbeat is refused before it gets a slot.
  function Refusal(s: Coord, w: World, c: Option<Configuration>, h: Beat): Option<BeatResult> {
    var p := FindParticipant(w.participants, h.id);
    if !ValidBeat(h) then Some(BeatInvalid)
    else if h.age >= h.lease then Some(BeatExpired)
    else if s.view.valid && (!s.view.admitted || !Contains(s.view, h.id)) then Some(GroupMismatch)
    else if !ActiveIn(p, c, s.view, h.id) then Some(if c.None? && p.None? then UnknownParticipant else ParticipantInactive)
    else if s.view.valid && s.view.groupId != h.groupId then Some(GroupMismatch)
    else if AssignedGroup(w, c, s.view, h.id) != Some(h.groupId) then Some(GroupMismatch)
    else if !(s.group.occupied && s.group.state.groupId == h.groupId) then Some(GroupMismatch)
    else None
  }

  function Accepted(s: Coord, w: World, h: Beat): (Coord, BeatResult) {
    var c := if w.configuration.Some? && w.configuration.value.rosterCommitted then w.configuration else None;
    var refusal := Refusal(s, w, c, h);
    if refusal.Some? then (s, refusal.value)
    else
      var i := SlotFor(s.heartbeats, h.id);
      if i == |s.heartbeats| then (s, NoRoom)
      else if s.heartbeats[i].occupied && s.heartbeats[i].bootId == h.bootId && h.sequence <= s.heartbeats[i].sequence then
        (s, Repeated)
      else
        (s.(heartbeats := s.heartbeats[i := Stored(s, w, c, h)], generation := Wrap32(s.generation + 1)),
         if StaleLeader(s, w, c, h) then StaleTerm else BeatOk)
  }
}
