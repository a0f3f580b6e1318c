/** A prepared bundle always completes the node it was prepared for. */
module ProvisioningProof {
  import opened Wrappers
  import opened Bytes
  import opened Credentials
  import opened SiteConfiguration
  import opened Provisioning

  // ---------------------------------------------------------------- filling registries

  // A registry holding the records in its first slots.
  function Table(records: seq<Credential>): (slots: Slots)
    ensures |records| <= SLOTS ==> slots == Packed(records, SLOTS)
  {
    if |records| <= SLOTS then Packed(records, SLOTS) else []
  }

  lemma PackedIsValid(records: seq<Credential>)
    requires DistinctRecords(records) && |records| <= SLOTS
    ensures ValidSlots(Table(records))
  {
  }

  lemma {:induction false} RecordsPacked(records: seq<Credential>, size: nat)
    requires |records| <= size
    ensures Records(Packed(records, size)) == records
    decreases size
  {
    var slots := Packed(records, size);
    if size > 0 {
      if records == [] {
        assert slots[1..] == Packed([], size - 1);
        RecordsPacked([], size - 1);
      } else {
        assert slots[1..] == Packed(records[1..], size - 1);
        RecordsPacked(records[1..], size - 1);
      }
    }
  }

  lemma {:induction false} RecordsSplit(slots: Slots, i: nat)
    requires i < |slots|
    ensures Records(slots[..i + 1]) == Records(slots[..i]) + if slots[i].Some? then [slots[i].value] else []
  {
    if i == 0 {
      assert slots[..1][1..] == [] && slots[..1][0] == slots[0];
    } else {
      RecordsSplit(slots[1..], i - 1);
      assert slots[..i + 1][1..] == slots[1..][..i] && slots[..i][1..] == slots[1..][..i - 1];
    }
  }

  lemma TokensDiffer(slots: Slots, a: string, b: string)
    requires ValidSlots(slots) && a != b && Find(slots, a).Some? && Find(slots, b).Some?
    ensures Find(slots, a).value.token != Find(slots, b).value.token
  {
    var i, j := IndexOf(slots, a), IndexOf(slots, b);
    assert HasId(slots[i], a) && HasId(slots[j], b);
  }

  // ---------------------------------------------------------------- preparing

  // No responder's record is handed out twice.
  lemma SourceIsInjective(site: Site, responder: string, requester: string, a: string, b: string)
    requires a != b && a != requester && b != requester
    ensures SourceId(site, responder, requester, a) != SourceId(site, responder, requester, b)
  {
  }

  // The bundle's records, in member order, as far as the responder has them.
  function Entries(site: Site, responder: string, credentials: Slots, requester: string, members: seq<Member>): (e: seq<Credential>)
    ensures |e| <= |members|
  {
    if members == [] then []
    else
      var before := Entries(site, responder, credentials, requester, members[..|members| - 1]);
      var m := members[|members| - 1];
      var source := Find(credentials, SourceId(site, responder, requester, m.id));
      if Wanted(site, requester, m) && source.Some? then before + [source.value.(id := m.id, enabled := true)] else before
  }

  predicate HasSources(site: Site, responder: string, credentials: Slots, requester: string, members: seq<Member>) {
    forall i | 0 <= i < |members| ::
      Wanted(site, requester, members[i]) ==> Usable(credentials, SourceId(site, responder, requester, members[i].id))
  }

  // The registry can store the id of every member the requester needs.
  predicate Storable(site: Site, requester: string, members: seq<Member>) {
    forall i | 0 <= i < |members| :: Wanted(site, requester, members[i]) ==> ValidId(members[i].id)
  }

  lemma {:induction false} EntryIsSource(site: Site, responder: string, credentials: Slots, requester: string, members: seq<Member>, k: nat)
    requires k < |Entries(site, responder, credentials, requester, members)|
    ensures var e := Entries(site, responder, credentials, requester, members)[k];
            exists i | 0 <= i < |members| ::
              && members[i].id == e.id && Wanted(site, requester, members[i])
              && Find(credentials, SourceId(site, responder, requester, e.id)).Some?
              && e == Find(credentials, SourceId(site, responder, requester, e.id)).value.(id := e.id, enabled := true)
  {
    var n := |members| - 1;
    hide Wanted, Find, SourceId;
    if k < |Entries(site, responder, credentials, requester, members[..n])| {
      EntryIsSource(site, responder, credentials, requester, members[..n], k);
      var i :| 0 <= i < n && members[..n][i].id == Entries(site, responder, credentials, requester, members)[k].id &&
               Wanted(site, requester, members[..n][i]);
      assert members[i] == members[..n][i];
    } else {
      assert members[n].id == Entries(site, responder, credentials, requester, members)[k].id;
    }
  }

  lemma {:induction false} EntriesDistinct(site: Site, responder: string, credentials: Slots, requester: string, members: seq<Member>)
    requires ValidSlots(credentials) && UniqueIds(members) && Storable(site, requester, members)
    ensures DistinctRecords(Entries(site, responder, credentials, requester, members))
  {
    if members != [] {
      var n := |members| - 1;
      EntriesDistinct(site, responder, credentials, requester, members[..n]);
      var before := Entries(site, responder, credentials, requester, members[..n]);
      var all := Entries(site, responder, credentials, requester, members);
      if all != before {
        var c := all[|before|];
        forall k | 0 <= k < |before| ensures before[k].id != c.id && before[k].token != c.token {
          NewEntry(site, responder, credentials, requester, members, k);
        }
        SourceValid(credentials, SourceId(site, responder, requester, c.id));
      }
    }
  }

  lemma SourceValid(slots: Slots, id: string)
    requires ValidSlots(slots) && Find(slots, id).Some?
    ensures ValidCredential(Find(slots, id).value)
  {
  }

  lemma NewEntry(site: Site, responder: string, credentials: Slots, requester: string, members: seq<Member>, k: nat)
    requires ValidSlots(credentials) && UniqueIds(members) && members != []
    requires var m := members[|members| - 1];
             Wanted(site, requester, m) && Find(credentials, SourceId(site, responder, requester, m.id)).Some?
    requires k < |Entries(site, responder, credentials, requester, members[..|members| - 1])|
    ensures var m, e := members[|members| - 1], Entries(site, responder, credentials, requester, members[..|members| - 1])[k];
            && e.id != m.id
            && e.token != Find(credentials, SourceId(site, responder, requester, m.id)).value.token
  {
    var n := |members| - 1;
    var m, e := members[n], Entries(site, responder, credentials, requester, members[..n])[k];
    EntryIsSource(site, responder, credentials, requester, members[..n], k);
    var i :| 0 <= i < n && members[..n][i].id == e.id && Wanted(site, requester, members[..n][i]);
    assert members[i].id != members[n].id;
    SourceIsInjective(site, responder, requester, e.id, m.id);
    TokensDiffer(credentials, SourceId(site, responder, requester, e.id), SourceId(site, responder, requester, m.id));
  }

  // A member that needs no entry leaves one slot of the member table unused.
  lemma {:induction false} EntriesFit(site: Site, responder: string, credentials: Slots, requester: string, members: seq<Member>, k: nat)
    requires k < |members| && !Wanted(site, requester, members[k])
    ensures |Entries(site, responder, credentials, requester, members)| < |members|
  {
    var n := |members| - 1;
    hide Wanted, Find, SourceId;
    if k < n {
      EntriesFit(site, responder, credentials, requester, members[..n], k);
    }
  }

  lemma {:induction false} EntriesGrow(site: Site, responder: string, credentials: Slots, requester: string, members: seq<Member>, i: nat)
    requires i <= |members|
    ensures Entries(site, responder, credentials, requester, members[..i]) <= Entries(site, responder, credentials, requester, members)
  {
    var n := |members|;
    hide Wanted, Find, SourceId;
    if i == n {
      assert members[..i] == members;
    } else {
      EntriesGrow(site, responder, credentials, requester, members[..n - 1], i);
      assert members[..n - 1][..i] == members[..i];
    }
  }

  // Filling gets past members that have a source and a storable id.
  lemma {:induction false} FillReaches(site: Site, responder: string, credentials: Slots, requester: string, members: seq<Member>, i: nat)
    requires i <= |members| && ValidSlots(credentials) && UniqueIds(members)
    requires |Entries(site, responder, credentials, requester, members)| <= SLOTS
    requires HasSources(site, responder, credentials, requester, members[..i]) && Storable(site, requester, members[..i])
    ensures FillBundle(site, responder, credentials, requester, members, Blank(SLOTS)) ==
            FillBundle(site, responder, credentials, requester, members[i..],
                       Table(Entries(site, responder, credentials, requester, members[..i])))
  {
    hide Wanted, Find, SourceId, Set, UniqueIds, ValidSlots, ValidCredential;
    if i == 0 {
      assert members[..0] == [] && members[0..] == members;
      assert Table([]) == Blank(SLOTS);
    } else {
      assert members[..i][..i - 1] == members[..i - 1] && members[..i][i - 1] == members[i - 1];
      ReadyShrinks(site, responder, credentials, requester, members, i);
      FillReaches(site, responder, credentials, requester, members, i - 1);
      FillStep(site, responder, credentials, requester, members, i - 1);
    }
  }

  lemma ReadyShrinks(site: Site, responder: string, credentials: Slots, requester: string, members: seq<Member>, i: nat)
    requires 0 < i <= |members|
    requires HasSources(site, responder, credentials, requester, members[..i]) && Storable(site, requester, members[..i])
    ensures HasSources(site, responder, credentials, requester, members[..i - 1]) && Storable(site, requester, members[..i - 1])
    ensures Wanted(site, requester, members[i - 1]) ==> Usable(credentials, SourceId(site, responder, requester, members[i - 1].id))
  {
    hide Wanted, Usable, ValidId;
    assert members[..i - 1] == members[..i][..i - 1] && members[i - 1] == members[..i][i - 1];
  }

  lemma FillStep(site: Site, responder: string, credentials: Slots, requester: string, members: seq<Member>, i: nat)
    requires i < |members| && ValidSlots(credentials) && UniqueIds(members) && Storable(site, requester, members[..i + 1])
    requires |Entries(site, responder, credentials, requester, members)| <= SLOTS
    requires Wanted(site, requester, members[i]) ==> Usable(credentials, SourceId(site, responder, requester, members[i].id))
    ensures var before := Entries(site, responder, credentials, requester, members[..i]);
            var next := Entries(site, responder, credentials, requester, members[..i + 1]);
            FillBundle(site, responder, credentials, requester, members[i..], Table(before)) ==
            FillBundle(site, responder, credentials, requester, members[i + 1..], Table(next))
  {
    hide Wanted, Find, SourceId, Set, ValidSlots, Table, ValidCredential, Storable;
    var m := members[i];
    assert members[i..][0] == m && members[i..][1..] == members[i + 1..];
    assert members[..i + 1][..i] == members[..i] && members[..i + 1][i] == m;
    if Wanted(site, requester, m) {
      EntriesGrow(site, responder, credentials, requester, members, i + 1);
      var before := Entries(site, responder, credentials, requester, members[..i]);
      var next := Entries(site, responder, credentials, requester, members[..i + 1]);
      var c := Find(credentials, SourceId(site, responder, requester, m.id)).value.(id := m.id, enabled := true);
      assert next == before + [c];
      EntriesDistinct(site, responder, credentials, requester, members[..i + 1]);
      SetAppends(before, c);
    }
  }

  // The argument, responder and requester checks.
  predicate MayPrepare(site: Site, responder: string, requester: string) {
    requester != "" && site.c.rosterCommitted && ActiveMember(site.c, responder) && ActiveMember(site.c, requester)
  }

  predicate Sized(site: Site) {
    |site.c.members| == MEMBERS && UniqueIds(site.c.members)
  }

  // The requester needs a member that the responder has no usable record for, or whose id the
  // registry cannot store.
  predicate Blocks(site: Site, responder: string, credentials: Slots, requester: string, m: Member) {
    && Wanted(site, requester, m)
    && !(Usable(credentials, SourceId(site, responder, requester, m.id)) && ValidId(m.id))
  }

  lemma EntriesRoom(site: Site, responder: string, credentials: Slots, requester: string)
    requires Sized(site) && MayPrepare(site, responder, requester)
    ensures |Entries(site, responder, credentials, requester, site.c.members)| <= SLOTS
  {
    var members := site.c.members;
    var self := SlotOf(members, requester);
    assert !Wanted(site, requester, members[self]);
    EntriesFit(site, responder, credentials, requester, members, self);
  }

  // Main result: past its checks, preparing succeeds when no member blocks it, and then gives
  // exactly one record for each member the requester needs.
  lemma PrepareOutcome(site: Site, responder: string, credentials: Slots, requester: string, bundle: Slots)
    requires Sized(site) && ValidSlots(credentials) && MayPrepare(site, responder, requester)
    requires HasSources(site, responder, credentials, requester, site.c.members) && Storable(site, requester, site.c.members)
    ensures var e := Entries(site, responder, credentials, requester, site.c.members);
            && |e| <= SLOTS && DistinctRecords(e)
            && Prepare(site, responder, credentials, requester, bundle) == (Table(e), Prepared)
  {
    var members := site.c.members;
    EntriesRoom(site, responder, credentials, requester);
    EntriesDistinct(site, responder, credentials, requester, members);
    hide ValidSlots, Wanted, ActiveMember, HasSources, Storable, UniqueIds, DistinctRecords;
    assert members[..|members|] == members;
    FillReaches(site, responder, credentials, requester, members, |members|);
  }

  // The first member that blocks decides how preparing fails, and the bundle is left empty.
  lemma PrepareStops(site: Site, responder: string, credentials: Slots, requester: string, bundle: Slots, k: nat)
    requires Sized(site) && ValidSlots(credentials) && MayPrepare(site, responder, requester)
    requires k < |site.c.members| && Blocks(site, responder, credentials, requester, site.c.members[k])
    requires forall i | 0 <= i < k :: !Blocks(site, responder, credentials, requester, site.c.members[i])
    ensures Prepare(site, responder, credentials, requester, bundle) ==
            (Blank(SLOTS), if Usable(credentials, SourceId(site, responder, requester, site.c.members[k].id))
                           then InvalidBundle else SourceCredentialMissing)
  {
    var members := site.c.members;
    EntriesRoom(site, responder, credentials, requester);
    hide ValidSlots, Wanted, ActiveMember, UniqueIds, ValidId, SourceId, Usable;
    NoneBlocks(site, responder, credentials, requester, members[..k]);
    FillReaches(site, responder, credentials, requester, members, k);
    StopsAt(site, responder, credentials, requester, members[k..],
            Table(Entries(site, responder, credentials, requester, members[..k])));
  }

  lemma NoneBlocks(site: Site, responder: string, credentials: Slots, requester: string, members: seq<Member>)
    ensures (forall i | 0 <= i < |members| :: !Blocks(site, responder, credentials, requester, members[i])) <==>
            HasSources(site, responder, credentials, requester, members) && Storable(site, requester, members)
  {
    hide Wanted, Usable, ValidId;
    if HasSources(site, responder, credentials, requester, members) && Storable(site, requester, members) {
      forall i | 0 <= i < |members| ensures !Blocks(site, responder, credentials, requester, members[i]) {
      }
    }
  }

  lemma StopsAt(site: Site, responder: string, credentials: Slots, requester: string, members: seq<Member>, bundle: Slots)
    requires members != [] && Blocks(site, responder, credentials, requester, members[0])
    ensures FillBundle(site, responder, credentials, requester, members, bundle) ==
            (Blank(SLOTS), if Usable(credentials, SourceId(site, responder, requester, members[0].id))
                           then InvalidBundle else SourceCredentialMissing)
  {
    hide Wanted, SourceId;
  }

  // Main result: past its checks, preparing succeeds exactly when the responder has a usable record
  // for every member the requester needs and the registry can store every such member's id.
  lemma PreparesExactly(site: Site, responder: string, credentials: Slots, requester: string, bundle: Slots)
    requires Sized(site) && ValidSlots(credentials) && MayPrepare(site, responder, requester)
    ensures Prepare(site, responder, credentials, requester, bundle).1 == Prepared <==>
            HasSources(site, responder, credentials, requester, site.c.members) && Storable(site, requester, site.c.members)
  {
    var members := site.c.members;
    hide Prepare, ValidSlots, Sized, MayPrepare, Blocks, HasSources, Storable;
    NoneBlocks(site, responder, credentials, requester, members);
    if HasSources(site, responder, credentials, requester, members) && Storable(site, requester, members) {
      PrepareOutcome(site, responder, credentials, requester, bundle);
    } else {
      var k := FirstBlock(site, responder, credentials, requester, members);
      PrepareStops(site, responder, credentials, requester, bundle, k);
    }
  }

  function FirstBlock(site: Site, responder: string, credentials: Slots, requester: string, members: seq<Member>): (k: nat)
    ensures k <= |members| && (k < |members| ==> Blocks(site, responder, credentials, requester, members[k]))
    ensures forall i | 0 <= i < k :: !Blocks(site, responder, credentials, requester, members[i])
  {
    if members == [] || Blocks(site, responder, credentials, requester, members[0]) then 0
    else 1 + FirstBlock(site, responder, credentials, requester, members[1..])
  }

  // Whatever the configuration and the bundle before: a needed member whose id the registry cannot
  // store, such as one with a colon, makes the filling fail.
  lemma {:induction false} UnstorableIdFails(site: Site, responder: string, credentials: Slots, requester: string,
                                             members: seq<Member>, k: nat, bundle: Slots)
    requires k < |members| && Wanted(site, requester, members[k]) && !ValidId(members[k].id)
    ensures FillBundle(site, responder, credentials, requester, members, bundle).1 != Prepared
    decreases |members|
  {
    hide Required;
    if k > 0 {
      var source := Find(credentials, SourceId(site, responder, requester, members[0].id));
      var next := if source.None? then bundle else Set(bundle, source.value.(id := members[0].id, enabled := true)).0;
      UnstorableIdFails(site, responder, credentials, requester, members[1..], k - 1,
                        if Wanted(site, requester, members[0]) then next else bundle);
    }
  }

  // A prepared bundle holds the entry of every member the requester needs, and no other.
  lemma {:induction false} EntryOf(site: Site, responder: string, credentials: Slots, requester: string, members: seq<Member>, i: nat)
    requires i < |members| && Wanted(site, requester, members[i])
    requires HasSources(site, responder, credentials, requester, members)
    ensures Find(credentials, SourceId(site, responder, requester, members[i].id)).Some?
    ensures Find(credentials, SourceId(site, responder, requester, members[i].id)).value.(id := members[i].id, enabled := true)
         in Entries(site, responder, credentials, requester, members)
  {
    var n := |members| - 1;
    hide Wanted, Find, SourceId;
    assert Usable(credentials, SourceId(site, responder, requester, members[i].id));
    if i < n {
      EntryOf(site, responder, credentials, requester, members[..n], i);
    }
  }

  lemma PackedFinds(records: seq<Credential>, c: Credential)
    requires DistinctRecords(records) && |records| <= SLOTS && c in records
    ensures Find(Table(records), c.id) == Some(c)
  {
    PackedIsValid(records);
    var k :| 0 <= k < |records| && records[k] == c;
    assert Table(records)[k] == Some(c);
    FindIsMembership(Table(records), c);
  }

  // The record under a member's id in a prepared bundle.
  lemma BundleHolds(site: Site, responder: string, credentials: Slots, requester: string, was: Slots, i: nat)
    requires Sized(site) && ValidSlots(credentials) && MayPrepare(site, responder, requester)
    requires i < |site.c.members| && Wanted(site, requester, site.c.members[i])
    ensures var (bundle, r) := Prepare(site, responder, credentials, requester, was);
            var id := site.c.members[i].id;
            var source := Find(credentials, SourceId(site, responder, requester, id));
            r == Prepared ==> source.Some? && Find(bundle, id) == Some(source.value.(id := id, enabled := true))
  {
    PreparesExactly(site, responder, credentials, requester, was);
    hide Prepare, Wanted, Find, Packed, DistinctRecords, ValidSlots, Sized, MayPrepare, Storable;
    if Prepare(site, responder, credentials, requester, was).1 == Prepared {
      PrepareOutcome(site, responder, credentials, requester, was);
      EntryOf(site, responder, credentials, requester, site.c.members, i);
      var id := site.c.members[i].id;
      PackedFinds(Entries(site, responder, credentials, requester, site.c.members),
                  Find(credentials, SourceId(site, responder, requester, id)).value.(id := id, enabled := true));
    }
  }

  // Main result: under the owner's id the requester finds the responder's record of the requester.
  lemma OwnerEntryBinds(site: Site, responder: string, credentials: Slots, requester: string, was: Slots)
    requires Sized(site) && ValidSlots(credentials) && MayPrepare(site, responder, requester)
    requires ActiveMember(site.c, site.c.ownerId) && site.c.ownerId != requester
    ensures var (bundle, r) := Prepare(site, responder, credentials, requester, was);
            r == Prepared ==>
              && Usable(credentials, requester)
              && BindsRequester(bundle, site.c.ownerId, Find(credentials, requester).value)
  {
    var i := SlotOf(site.c.members, site.c.ownerId);
    var owner := site.c.members[i];
    assert owner.occupied && owner.id == site.c.ownerId;
    assert Wanted(site, requester, owner);
    PreparesExactly(site, responder, credentials, requester, was);
    BundleHolds(site, responder, credentials, requester, was, i);
    hide Prepare, Entries, Packed, Find, Sized, MayPrepare, ActiveMember;
  }

  // The successor may succeed, and no member that may has a smaller id.
  lemma {:induction false} SuccessorIsLeast(c: Configuration, members: seq<Member>, best: Option<string>)
    ensures var s := SuccessorAmong(c, members, best);
            && (s.Some? ==> s == best || exists i | 0 <= i < |members| :: MaySucceed(c, members[i]) && members[i].id == s.value)
            && (best.Some? ==> s.Some? && !Less(best.value, s.value))
            && (forall i | 0 <= i < |members| :: MaySucceed(c, members[i]) ==> s.Some? && !Less(members[i].id, s.value))
  {
    hide MaySucceed, Less;
    if members == [] {
      if best.Some? { IrreflexiveLess(best.value); }
    } else {
      var m := members[0];
      var better := MaySucceed(c, m) && (best.None? || Less(m.id, best.value));
      SuccessorIsLeast(c, members[1..], if better then Some(m.id) else best);
      var s := SuccessorAmong(c, members, best);
      if better && best.Some? && Less(best.value, s.value) {
        LessTransitive(m.id, best.value, s.value);
      }
      if MaySucceed(c, m) && best.Some? && !better && Less(m.id, s.value) {
        LessTotal(m.id, best.value);
        if Less(best.value, m.id) { LessTransitive(best.value, m.id, s.value); }
      }
      forall i | 0 <= i < |members| && MaySucceed(c, members[i]) ensures s.Some? && !Less(members[i].id, s.value) {
        if i > 0 { assert members[i] == members[1..][i - 1]; }
      }
    }
  }
}
