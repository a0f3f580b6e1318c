/** Which credentials a node needs, and how one node hands them to another. */
module Provisioning {
  import opened Wrappers
  import opened Bytes
  import opened Credentials
  import opened SiteConfiguration

  datatype ProvisioningResult =
    | Prepared | AlreadyComplete | InvalidArgument | NotOwner | RequesterInactive
    | SourceCredentialMissing | InvalidBundle | RegistryFull

  datatype DirectoryGroup = DirectoryGroup(occupied: bool, groupId: string, leaderId: string, floorplanId: string, revision: U32, memberCount: Byte)

  // What provisioning reads: `leader` is empty when there is no site leader, and `valid` is the
  // outcome of validating the configuration.
  datatype Site = Site(c: Configuration, groups: seq<DirectoryGroup>, leader: string, valid: bool)

  predicate LeadsGroup(site: Site, id: string) {
    exists i | 0 <= i < |site.groups| :: site.groups[i].occupied && site.groups[i].leaderId == id
  }

  // The group an id belongs to, if it has a committed one.
  function GroupOf(site: Site, id: string): Option<string> {
    var m := FindMember(site.c.members, id);
    if m.Some? && m.value.profile.committed && m.value.profile.groupId != "" then Some(m.value.profile.groupId) else None
  }

  predicate MaySucceed(c: Configuration, m: Member) {
    m.occupied && m.membership == Active && m.kind == NamoNode && m.leaderEligible && m.id != c.ownerId
  }

  // The smallest id that may take over the configuration.
  function SuccessorAmong(c: Configuration, members: seq<Member>, best: Option<string>): Option<string> {
    if members == [] then best
    else
      var m := members[0];
      var better := MaySucceed(c, m) && (best.None? || Less(m.id, best.value));
      SuccessorAmong(c, members[1..], if better then Some(m.id) else best)
  }

  function Successor(site: Site): Option<string> {
    if !site.valid || !site.c.rosterCommitted || site.c.ownerId == "" then None
    else SuccessorAmong(site.c, site.c.members, None)
  }

  predicate Required(site: Site, node: string, candidate: string) {
    && site.c.rosterCommitted && ActiveMember(site.c, node) && ActiveMember(site.c, candidate) && node != candidate
    && (|| candidate == site.c.ownerId
        || EligibleMember(site.c, candidate)
        || (GroupOf(site, node).Some? && GroupOf(site, node) == GroupOf(site, candidate))
        || (site.leader != "" && node == site.leader && LeadsGroup(site, candidate))
        || (site.leader != "" && candidate == site.leader && LeadsGroup(site, node))
        || Successor(site) == Some(node))
  }

  predicate Usable(slots: Slots, id: string) {
    Find(slots, id).Some? && Find(slots, id).value.enabled
  }

  // Every credential the node needs is there and enabled.
  predicate Complete(site: Site, node: string, slots: Slots) {
    && site.c.rosterCommitted && ActiveMember(site.c, node)
    && forall i | 0 <= i < |site.c.members| ::
         site.c.members[i].occupied && Required(site, node, site.c.members[i].id) ==> Usable(slots, site.c.members[i].id)
  }

  // Whose record the responder hands out under a member's id.
  function SourceId(site: Site, responder: string, requester: string, id: string): string {
    if id == site.c.ownerId then requester
    else if responder != site.c.ownerId && id == responder then site.c.ownerId
    else id
  }

  predicate Wanted(site: Site, requester: string, m: Member) {
    m.occupied && Required(site, requester, m.id)
  }

  function FillBundle(site: Site, responder: string, credentials: Slots, requester: string, members: seq<Member>, bundle: Slots)
    : (Slots, ProvisioningResult)
  {
    if members == [] then (bundle, Prepared)
    else if !Wanted(site, requester, members[0]) then FillBundle(site, responder, credentials, requester, members[1..], bundle)
    else
      var id := members[0].id;
      var source := Find(credentials, SourceId(site, responder, requester, id));
      if source.None? || !source.value.enabled then (Blank(SLOTS), SourceCredentialMissing)
      else
        var (next, r) := Set(bundle, source.value.(id := id, enabled := true));
        if r != OK then (Blank(SLOTS), if r == FULL then RegistryFull else InvalidBundle)
        else FillBundle(site, responder, credentials, requester, members[1..], next)
  }

  function Prepare(site: Site, responder: string, credentials: Slots, requester: string, bundle: Slots)
    : (Slots, ProvisioningResult)
  {
    if requester == "" || !site.c.rosterCommitted then (bundle, InvalidArgument)
    else if !ActiveMember(site.c, responder) then (bundle, NotOwner)
    else if !ActiveMember(site.c, requester) then (bundle, RequesterInactive)
    else FillBundle(site, responder, credentials, requester, site.c.members, Blank(SLOTS))
  }

  predicate SameRecord(a: Credential, b: Credential) {
    a.enabled == b.enabled && a.token == b.token && a.keyVersion == b.keyVersion && a.key == b.key
  }

  // The first check of a merge: the bundle holds everything the node needs.
  predicate Covers(site: Site, node: string, bundle: Slots) {
    forall i | 0 <= i < |site.c.members| :: Wanted(site, node, site.c.members[i]) ==> Usable(bundle, site.c.members[i].id)
  }

  // Copying the bundle's records one by one into the scratch registry.
  function Copy(site: Site, node: string, bundle: Slots, credentials: Slots, scratch: Slots, changed: bool)
    : (Slots, bool, ProvisioningResult)
  {
    if bundle == [] then (scratch, changed, Prepared)
    else if bundle[0].None? then Copy(site, node, bundle[1..], credentials, scratch, changed)
    else
      var source := bundle[0].value;
      if !source.enabled || !Required(site, node, source.id) then (scratch, changed, InvalidBundle)
      else
        var existing := Find(credentials, source.id);
        var differs := existing.None? || !SameRecord(existing.value, source);
        var (next, r) := Set(scratch, source);
        if r != OK then (next, changed || differs, if r == FULL then RegistryFull else InvalidBundle)
        else Copy(site, node, bundle[1..], credentials, next, changed || differs)
  }

  // The node's registry after the merge, whether it changed, and the result.
  function Merge(site: Site, node: string, bundle: Slots, credentials: Slots): (Slots, bool, ProvisioningResult) {
    if !site.c.rosterCommitted || !ActiveMember(site.c, node) then (credentials, false, InvalidArgument)
    else if !Covers(site, node, bundle) then (credentials, false, InvalidBundle)
    else
      var sizes := |Records(credentials)| != |Records(bundle)|;
      var (scratch, changed, r) := Copy(site, node, bundle, credentials, Blank(SLOTS), sizes);
      if r != Prepared then (credentials, changed, r)
      else if changed then (scratch, true, Prepared)
      else (credentials, false, AlreadyComplete)
  }

  // The bundle's entry for the owner is the responder's record of the requester.
  predicate BindsRequester(bundle: Slots, ownerId: string, request: Credential) {
    var owner := Find(bundle, ownerId);
    && ownerId != "" && request.enabled && owner.Some? && owner.value.enabled
    && owner.value.token == request.token && owner.value.keyVersion == request.keyVersion && owner.value.key == request.key
  }
}
