/** A valid configuration that no bundle can be prepared for: it lets an owner's id hold a colon, and the
    credential registry does not. */
module UnstorableIdExample {
  import opened Wrappers
  import opened Bytes
  import opened Credentials
  import opened SiteConfiguration
  import opened Provisioning
  import opened ProvisioningProof

  const OWNER := Member(true, "a:b", NamoNode, OfficialVerified, Active, true, NO_PROFILE)
  const NODE := Member(true, "n", NamoNode, OfficialVerified, Active, false, NO_PROFILE)

  function Members(): (s: seq<Member>)
    ensures |s| == MEMBERS && s[0] == OWNER && s[1] == NODE
    ensures forall i | 2 <= i < |s| :: s[i] == BLANK_MEMBER
  {
    [OWNER, NODE] + seq(MEMBERS - 2, _ => BLANK_MEMBER)
  }

  function SiteOf(): Site {
    Site(Configuration("site", "a:b", 1, 1, 1, true, Members(), NO_FLOORPLAN), [], "", true)
  }

  // The owner's registry: the record of the requesting node.
  function SourceOf(): Slots {
    Packed([Credential(true, "n", 1, 1, Zeros(32))], SLOTS)
  }

  lemma BothAreActive()
    ensures ActiveMember(SiteOf().c, "a:b") && ActiveMember(SiteOf().c, "n") && EligibleMember(SiteOf().c, "a:b")
  {
    assert "n"[0] != "a:b"[0];
    assert IsMember(Members()[0], "a:b") && IsMember(Members()[1], "n");
    assert SlotOf(Members(), "a:b") == 0;
    assert SlotOf(Members(), "n") == 1;
  }

  lemma SiteIsValid()
    ensures ValidConfiguration(SiteOf().c) && Sized(SiteOf()) && MayPrepare(SiteOf(), "a:b", "n")
  {
    hide EligibleMember, ActiveMember;
    BothAreActive();
    assert "n"[0] != "a:b"[0];
    assert Members()[0].occupied;
    assert ValidText("a:b", MAX_ID) && ValidText("n", MAX_ID) && ValidText("site", MAX_ID);
    assert ValidMember(OWNER) && ValidMember(NODE);
  }

  lemma SourceIsUsable()
    ensures ValidSlots(SourceOf()) && Usable(SourceOf(), "n")
  {
    var c := Credential(true, "n", 1, 1, Zeros(32));
    assert ValidId("n");
    assert DistinctRecords([c]);
    PackedFinds([c], c);
  }

  // The owner has a usable record for everything the node needs, and yet preparing fails.
  lemma ColonOwnerFails(bundle: Slots)
    ensures ValidConfiguration(SiteOf().c) && ValidSlots(SourceOf()) && MayPrepare(SiteOf(), "a:b", "n")
    ensures HasSources(SiteOf(), "a:b", SourceOf(), "n", Members())
    ensures Prepare(SiteOf(), "a:b", SourceOf(), "n", bundle) == (Blank(SLOTS), InvalidBundle)
  {
    hide ValidConfiguration, ActiveMember, EligibleMember, Usable, FillBundle, ValidSlots;
    SiteIsValid();
    SourceIsUsable();
    BothAreActive();
    assert "n"[0] != "a:b"[0];
    assert Wanted(SiteOf(), "n", OWNER);
    assert !Wanted(SiteOf(), "n", NODE);
    assert !ValidId("a:b") by { assert "a:b"[1] == ':'; }
    PrepareStops(SiteOf(), "a:b", SourceOf(), "n", bundle, 0);
  }
}
