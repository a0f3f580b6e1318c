/** Preparing, merging and checking credentials on registry objects. */
module ProvisioningExchange {
  import opened Wrappers
  import opened Credentials
  import opened CredentialRegistry
  import opened SiteConfiguration
  import opened Provisioning

  method CredentialsComplete(site: Site, node: string, credentials: Registry) returns (complete: bool)
    requires credentials.Valid()
    ensures complete == Complete(site, node, credentials.entries[..])
  {
    if !site.c.rosterCommitted || !ActiveMember(site.c, node) { return false; }
    for i := 0 to |site.c.members|
      invariant forall j | 0 <= j < i :: Wanted(site, node, site.c.members[j]) ==>
                  Usable(credentials.entries[..], site.c.members[j].id)
    {
      var m := site.c.members[i];
      if !m.occupied || !Required(site, node, m.id) { continue; }
      var credential := credentials.Find(m.id);
      if credential.None? || !credential.value.enabled { return false; }
    }
    complete := true;
  }

  method PrepareBundle(site: Site, responder: string, credentials: Registry, requester: string, bundle: Registry)
    returns (r: ProvisioningResult)
    requires credentials.Valid() && bundle.Valid() && credentials.entries != bundle.entries
    modifies bundle.entries
    ensures bundle.Valid()
    ensures (bundle.entries[..], r)
         == Prepare(site, responder, credentials.entries[..], requester, old(bundle.entries[..]))
  {
    if requester == "" || !site.c.rosterCommitted { return InvalidArgument; }
    if !ActiveMember(site.c, responder) { return NotOwner; }
    if !ActiveMember(site.c, requester) { return RequesterInactive; }
    bundle.Clear();
    ghost var from := credentials.entries[..];
    ghost var goal := FillBundle(site, responder, from, requester, site.c.members, Blank(SLOTS));
    assert site.c.members[0..] == site.c.members;
    for i := 0 to |site.c.members|
      invariant bundle.Valid() && credentials.entries[..] == from
      invariant FillBundle(site, responder, from, requester, site.c.members[i..], bundle.entries[..]) == goal
    {
      hide ActiveMember, EligibleMember, Set, ValidSlots, Required;
      var m := site.c.members[i];
      assert site.c.members[i..][1..] == site.c.members[i + 1..];
      if !m.occupied || !Required(site, requester, m.id) { continue; }
      var source := credentials.Find(SourceId(site, responder, requester, m.id));
      if source.None? || !source.value.enabled {
        bundle.Clear();
        return SourceCredentialMissing;
      }
      var result := bundle.Set(source.value.(id := m.id, enabled := true));
      if result != OK {
        bundle.Clear();
        return if result == FULL then RegistryFull else InvalidBundle;
      }
    }
    r := Prepared;
  }

  method Covered(site: Site, node: string, bundle: Registry) returns (covered: bool)
    requires bundle.Valid()
    ensures covered == Covers(site, node, bundle.entries[..])
  {
    for i := 0 to |site.c.members|
      invariant forall j | 0 <= j < i :: Wanted(site, node, site.c.members[j]) ==> Usable(bundle.entries[..], site.c.members[j].id)
    {
      var m := site.c.members[i];
      if !m.occupied || !Required(site, node, m.id) { continue; }
      var required := bundle.Find(m.id);
      if required.None? || !required.value.enabled { return false; }
    }
    covered := true;
  }

  method CopyBundle(site: Site, node: string, bundle: Registry, credentials: Registry, scratch: Registry, sizes: bool)
    returns (changed: bool, r: ProvisioningResult)
    requires bundle.Valid() && credentials.Valid() && scratch.Valid()
    requires scratch.entries != bundle.entries && scratch.entries != credentials.entries
    modifies scratch.entries
    ensures scratch.Valid()
    ensures (scratch.entries[..], changed, r)
         == Copy(site, node, bundle.entries[..], credentials.entries[..], old(scratch.entries[..]), sizes)
  {
    changed := sizes;
    ghost var from, with := bundle.entries[..], credentials.entries[..];
    ghost var goal := Copy(site, node, from, with, scratch.entries[..], sizes);
    assert from[0..] == from;
    for slot := 0 to SLOTS
      invariant scratch.Valid() && bundle.entries[..] == from && credentials.entries[..] == with
      invariant Copy(site, node, from[slot..], with, scratch.entries[..], changed) == goal
    {
      hide Required, Set, ValidSlots, SameRecord, ValidCredential;
      assert from[slot..][1..] == from[slot + 1..] && from[slot..][0] == bundle.entries[slot];
      if bundle.entries[slot].None? { continue; }
      var source := bundle.entries[slot].value;
      if !source.enabled || !Required(site, node, source.id) {
        return changed, InvalidBundle;
      }
      var existing := credentials.Find(source.id);
      if existing.None? || !SameRecord(existing.value, source) {
        changed := true;
      }
      var result := scratch.Set(source);
      if result != OK {
        return changed, if result == FULL then RegistryFull else InvalidBundle;
      }
    }
    r := Prepared;
  }

  method MergeBundle(site: Site, node: string, bundle: Registry, credentials: Registry, scratch: Registry)
    returns (changed: bool, r: ProvisioningResult)
    requires bundle.Valid() && credentials.Valid() && scratch.Valid()
    requires bundle.entries != credentials.entries && scratch.entries != bundle.entries
    requires scratch.entries == credentials.entries ==> scratch == credentials
    modifies credentials.entries, scratch.entries
    ensures credentials.Valid()
    ensures scratch == credentials ==> r == InvalidArgument && credentials.entries[..] == old(credentials.entries[..])
    ensures scratch != credentials ==>
              (credentials.entries[..], changed, r) == Merge(site, node, bundle.entries[..], old(credentials.entries[..]))
  {
    if scratch == credentials || !site.c.rosterCommitted || !ActiveMember(site.c, node) { return false, InvalidArgument; }
    var covered := Covered(site, node, bundle);
    if !covered { return false, InvalidBundle; }
    hide Copy, Covers, Required, ActiveMember, ValidSlots, Records;
    scratch.Clear();
    var mine := credentials.Size();
    var theirs := bundle.Size();
    changed, r := CopyBundle(site, node, bundle, credentials, scratch, mine != theirs);
    if r != Prepared { return; }
    if changed {
      credentials.Assign(scratch);
    } else {
      r := AlreadyComplete;
    }
  }
}
