/** Merging a prepared bundle. */
module ProvisioningMerge {
  import opened Wrappers
  import opened Bytes
  import opened Credentials
  import opened SiteConfiguration
  import opened Provisioning
  import opened ProvisioningProof

  // Every record of the bundle is enabled and needed.
  predicate AllNeeded(site: Site, node: string, bundle: Slots) {
    forall i | 0 <= i < |bundle| :: bundle[i].Some? ==> bundle[i].value.enabled && Required(site, node, bundle[i].value.id)
  }

  predicate Differs(credentials: Slots, c: Credential) {
    Find(credentials, c.id).None? || !SameRecord(Find(credentials, c.id).value, c)
  }

  predicate AnyDiffers(credentials: Slots, bundle: Slots) {
    exists i | 0 <= i < |bundle| :: bundle[i].Some? && Differs(credentials, bundle[i].value)
  }

  lemma AnyDiffersStep(credentials: Slots, bundle: Slots, i: nat)
    requires i < |bundle|
    ensures AnyDiffers(credentials, bundle[i..]) <==>
            (bundle[i].Some? && Differs(credentials, bundle[i].value)) || AnyDiffers(credentials, bundle[i + 1..])
  {
    hide Differs;
    var rest, tail := bundle[i..], bundle[i + 1..];
    if k :| 0 <= k < |rest| && rest[k].Some? && Differs(credentials, rest[k].value) {
      if k > 0 { assert rest[k] == tail[k - 1]; }
    }
    if k :| 0 <= k < |tail| && tail[k].Some? && Differs(credentials, tail[k].value) {
      assert rest[k + 1] == tail[k];
    }
    assert rest[0] == bundle[i];
  }

  lemma PrefixRecords(bundle: Slots, i: nat)
    requires ValidSlots(bundle) && |bundle| == SLOTS && i < |bundle|
    ensures var before := Records(bundle[..i]);
            && |before| < SLOTS
            && Records(bundle[..i + 1]) == before + (if bundle[i].Some? then [bundle[i].value] else [])
            && (bundle[i].Some? ==> DistinctRecords(before + [bundle[i].value]))
  {
    RecordsSplit(bundle, i);
    assert ValidSlots(bundle[..i + 1]);
    RecordsDistinct(bundle[..i + 1]);
  }

  // Copying keeps every record, in order, and notices any difference.
  lemma {:induction false} CopyRuns(site: Site, node: string, bundle: Slots, credentials: Slots, i: nat, changed: bool)
    requires ValidSlots(bundle) && |bundle| == SLOTS && i <= |bundle| && AllNeeded(site, node, bundle)
    ensures Copy(site, node, bundle[i..], credentials, Table(Records(bundle[..i])), changed)
         == (Compact(bundle), changed || AnyDiffers(credentials, bundle[i..]), Prepared)
    decreases |bundle| - i
  {
    if i == |bundle| {
      assert bundle[..i] == bundle;
    } else {
      AnyDiffersStep(credentials, bundle, i);
      PrefixRecords(bundle, i);
      hide Records, Required, Table, Set, ValidSlots, Compact, AnyDiffers, DistinctRecords, SameRecord, Find;
      assert bundle[i..][0] == bundle[i] && bundle[i..][1..] == bundle[i + 1..];
      if bundle[i].None? {
        assert Records(bundle[..i]) + [] == Records(bundle[..i]);
        CopyRuns(site, node, bundle, credentials, i + 1, changed);
      } else {
        SetAppends(Records(bundle[..i]), bundle[i].value);
        CopyRuns(site, node, bundle, credentials, i + 1, changed || Differs(credentials, bundle[i].value));
      }
    }
  }

  predicate Mergeable(site: Site, node: string, bundle: Slots) {
    && site.c.rosterCommitted && ActiveMember(site.c, node) && |bundle| == SLOTS && ValidSlots(bundle)
    && Covers(site, node, bundle) && AllNeeded(site, node, bundle)
  }

  lemma MergeOutcome(site: Site, node: string, bundle: Slots, credentials: Slots)
    requires Mergeable(site, node, bundle)
    ensures var changed := |Records(credentials)| != |Records(bundle)| || AnyDiffers(credentials, bundle);
            Merge(site, node, bundle, credentials) ==
            if changed then (Compact(bundle), true, Prepared) else (credentials, false, AlreadyComplete)
  {
    hide Records, Compact, AnyDiffers, AllNeeded, Covers, Copy, ValidSlots, ActiveMember;
    assert bundle[0..] == bundle;
    StartsBlank(bundle);
    CopyRuns(site, node, bundle, credentials, 0, |Records(credentials)| != |Records(bundle)|);
  }

  lemma StartsBlank(bundle: Slots)
    ensures Table(Records(bundle[..0])) == Blank(SLOTS)
  {
    assert bundle[..0] == [];
  }

  // What the registry holds after a merge agrees with the bundle.
  lemma AfterAgrees(site: Site, node: string, bundle: Slots, credentials: Slots, c: Credential)
    requires Mergeable(site, node, bundle) && Some(c) in bundle
    ensures !Differs(Merge(site, node, bundle, credentials).0, c)
  {
    MergeOutcome(site, node, bundle, credentials);
    FindIsMembership(bundle, c);
    CompactKeeps(bundle, c.id);
    hide Records, Compact, Merge, Covers, AllNeeded, ValidSlots, Find;
    var i :| 0 <= i < |bundle| && bundle[i] == Some(c);
  }

  // A merge leaves the node with everything it needs, and merging again changes nothing.
  lemma MergeCompletes(site: Site, node: string, bundle: Slots, credentials: Slots)
    requires Mergeable(site, node, bundle)
    ensures var (after, _, r) := Merge(site, node, bundle, credentials);
            && (r == Prepared || r == AlreadyComplete)
            && Complete(site, node, after)
            && Merge(site, node, bundle, after) == (after, false, AlreadyComplete)
  {
    MergeOutcome(site, node, bundle, credentials);
    var after := Merge(site, node, bundle, credentials).0;
    MergeOutcome(site, node, bundle, after);
    forall i | 0 <= i < |site.c.members| && Wanted(site, node, site.c.members[i]) ensures Usable(after, site.c.members[i].id) {
      UsableAfter(site, node, bundle, credentials, site.c.members[i].id);
    }
    assert !AnyDiffers(after, bundle) by {
      forall i | 0 <= i < |bundle| && bundle[i].Some? ensures !Differs(after, bundle[i].value) {
        AfterAgrees(site, node, bundle, credentials, bundle[i].value);
      }
      hide Merge, Differs;
    }
    RecordsPacked(Records(bundle), |bundle|);
    hide Merge, Records, AnyDiffers, Required, Usable, Covers, AllNeeded;
  }

  lemma UsableAfter(site: Site, node: string, bundle: Slots, credentials: Slots, id: string)
    requires Mergeable(site, node, bundle) && Usable(bundle, id)
    ensures Usable(Merge(site, node, bundle, credentials).0, id)
  {
    hide Merge, Mergeable, Find;
    AfterAgrees(site, node, bundle, credentials, Find(bundle, id).value);
  }

  // A merge that does not report success leaves the registry as it was.
  lemma FailedMergeKeeps(site: Site, node: string, bundle: Slots, credentials: Slots)
    ensures Merge(site, node, bundle, credentials).2 != Prepared ==> Merge(site, node, bundle, credentials).0 == credentials
  {
  }

  lemma PreparedIsMergeable(site: Site, responder: string, credentials: Slots, requester: string, was: Slots)
    requires Sized(site) && ValidSlots(credentials) && MayPrepare(site, responder, requester)
    ensures var (bundle, r) := Prepare(site, responder, credentials, requester, was);
            r == Prepared ==> Mergeable(site, requester, bundle)
  {
    PreparesExactly(site, responder, credentials, requester, was);
    var members := site.c.members;
    var (bundle, r) := Prepare(site, responder, credentials, requester, was);
    if r == Prepared {
      PrepareOutcome(site, responder, credentials, requester, was);
      var e := Entries(site, responder, credentials, requester, members);
      PackedIsValid(e);
      forall i | 0 <= i < |members| && Wanted(site, requester, members[i]) ensures Usable(bundle, members[i].id) {
        BundleHolds(site, responder, credentials, requester, was, i);
      }
      forall k | 0 <= k < |e| ensures e[k].enabled && Required(site, requester, e[k].id) {
        EntryIsSource(site, responder, credentials, requester, members, k);
      }
      hide Prepare, Wanted, Find, Required, ValidSlots, DistinctRecords, Entries;
    }
  }

  // Main result: a bundle prepared for an active node always completes it.
  lemma PreparedBundleCompletes(site: Site, responder: string, source: Slots, requester: string, was: Slots, credentials: Slots)
    requires Sized(site) && ValidSlots(source)
    ensures var (bundle, prepared) := Prepare(site, responder, source, requester, was);
            var (after, _, merged) := Merge(site, requester, bundle, credentials);
            prepared == Prepared ==>
              && (merged == Prepared || merged == AlreadyComplete)
              && Complete(site, requester, after)
              && Merge(site, requester, bundle, after) == (after, false, AlreadyComplete)
  {
    var (bundle, prepared) := Prepare(site, responder, source, requester, was);
    if prepared == Prepared {
      assert MayPrepare(site, responder, requester);
      hide Prepare, Merge, Mergeable, Sized, ValidSlots, Complete;
      PreparedIsMergeable(site, responder, source, requester, was);
      MergeCompletes(site, requester, bundle, credentials);
    }
  }
}
