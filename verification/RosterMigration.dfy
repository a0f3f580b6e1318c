/** The first migration of the roster store, under any faults: what it leaves, and which later migrations
    can complete it. */
module RosterMigration {
  import opened Wrappers
  import opened Bytes
  import opened CommitRecords
  import opened SiteConfiguration
  import opened GroupRoster
  import opened RosterMedium
  import opened Flash
  import opened TwoSlot
  import opened RosterCrash

  // A medium that can be read and holds nothing.
  predicate Unused(k: Codec, m: RosterFlash) {
    Readable(m) && ReadCommit(m).None? && SlotContent(k, m, 0).NoData? && SlotContent(k, m, 1).NoData?
  }

  // The first fault tears the first slot into bytes that do not read as empty.
  predicate Spoils(k: Codec, faults: seq<RosterFault>) {
    faults != [] && faults[0].TearsSlot? && !k.decode(faults[0].junkSlot).NoData?
  }

  // What the first slot holds once a migration has tried to write it.
  function FirstSlot(k: Codec, fault: RosterFault, stored: Roster): Decoded {
    match fault
    case Works => Read(stored)
    case WritesButFails => Read(stored)
    case TearsSlot(junk) => k.decode(junk)
    case _ => NoData
  }

  // The store after a migration that got as far as its first slot.
  ghost predicate Migrating(k: Codec, m: RosterFlash, first: Decoded) {
    && Readable(m) && SlotContent(k, m, 0) == first && SlotContent(k, m, 1).NoData?
    && (ReadCommit(m) == None || (first.Read? && ReadCommit(m) == Some(CommitRecord(0, 1))))
  }

  lemma FirstWrite(k: Codec, m: RosterFlash, roster: Roster, data: Blob)
    requires RoundTrips(k) && Unused(k, m) && TearsVisibly(k, m.faults) && k.encode(roster) == Some(data)
    ensures var (m1, ok) := SaveSlot(m, 0, data);
            && Migrating(k, m1, FirstSlot(k, NextFault(m), k.stored(roster))) && ReadCommit(m1) == None
            && (ok <==> NextFault(m).Works?) && TearsVisibly(k, m1.faults) && (m.faults == [] ==> m1.faults == [])
  {
    assert k.decode(k.encode(roster).value) == Read(k.stored(roster));
    NextHarmless(k, m);
    hide RoundTrips, DecodeCommit, TearsVisibly;
  }

  lemma RecordAfter(k: Codec, m: RosterFlash, first: Decoded)
    requires Migrating(k, m, first) && first.Read? && TearsVisibly(k, m.faults)
    ensures var (m1, ok) := WriteCommit(m, CommitBytes(CommitRecord(0, 1)));
            && Migrating(k, m1, first) && TearsVisibly(k, m1.faults)
            && (ok ==> ReadCommit(m1) == Some(CommitRecord(0, 1))) && (m.faults == [] ==> ok)
  {
    CommitRoundTrip(CommitRecord(0, 1));
    NextHarmless(k, m);
    NextHarmless(k, Spend(m));
    hide DecodeCommit, CommitBytes, TearsVisibly;
  }

  lemma SyncKeeps(k: Codec, m: RosterFlash, first: Decoded)
    requires Migrating(k, m, first) && TearsVisibly(k, m.faults)
    ensures var (m1, ok) := Sync(m);
            && Migrating(k, m1, first) && TearsVisibly(k, m1.faults) && (m.faults == [] ==> ok && m1.faults == [])
  {
    NextHarmless(k, m);
    hide DecodeCommit, TearsVisibly;
  }

  // Such a store is ready as soon as its first slot can be read.
  lemma MigratingIsReady(k: Codec, m: RosterFlash, stored: Roster)
    requires RoundTrips(k) && Migrating(k, m, Read(stored)) && stored.generation == 1 && TearsVisibly(k, m.faults)
    ensures Ready(k, m) && Current(ImageOf(k, m)) == Holds(1, stored)
  {
    hide DecodeCommit, TearsVisibly, RoundTrips, ReadCommit, SlotContent;
    assert ImageOf(k, m).slots == [Holds(1, stored), Broken];
  }

  lemma WriteOutcome(k: Codec, m: RosterFlash, roster: Roster)
    requires RoundTrips(k) && Unused(k, m) && TearsVisibly(k, m.faults) && k.encode(roster).Some? && roster.generation == 1
    ensures var (m1, r) := Write(k, m, 0, roster);
            && Migrating(k, m1, FirstSlot(k, NextFault(m), k.stored(roster))) && TearsVisibly(k, m1.faults)
            && (r == Updated || r == StorageFailed) && (r == Updated ==> NextFault(m).Works?)
            && (m.faults == [] ==> r == Updated)
  {
    var data := k.encode(roster).value;
    var first := FirstSlot(k, NextFault(m), k.stored(roster));
    hide RoundTrips, TearsVisibly, Migrating, Unused, SaveSlot, Sync, WriteCommit, CommitBytes;
    FirstWrite(k, m, roster, data);
    var (m1, saved) := SaveSlot(m, 0, data);
    if saved {
      SyncKeeps(k, m1, first);
      RecordAfter(k, Sync(m1).0, first);
    }
  }

  lemma PreparedIsValid(c: Configuration, groupId: string, leaderId: string)
    requires PrepareRoster(c, groupId, leaderId).1 == RosterOk
    ensures ValidRoster(PrepareRoster(c, groupId, leaderId).0)
  {
    hide ValidRoster, Collect, Assemble, FindInRoster;
  }

  // What a migration stores, when it can be encoded.
  function Prepared(c: Configuration, groupId: string, leaderId: string): Roster {
    PrepareRoster(c, groupId, leaderId).0.(generation := 1)
  }

  predicate Migratable(k: Codec, c: Configuration, groupId: string, leaderId: string) {
    PrepareRoster(c, groupId, leaderId).1 == RosterOk && k.encode(Prepared(c, groupId, leaderId)).Some?
  }

  lemma UnusedLoads(k: Codec, m: RosterFlash)
    requires Unused(k, m)
    ensures Load(k, m) == (m, Empty, None)
  {
  }

  lemma UnusedMigrates(k: Codec, m: RosterFlash, c: Configuration, groupId: string, leaderId: string)
    requires Unused(k, m) && Migratable(k, c, groupId, leaderId)
    ensures var (m1, w) := Write(k, m, 0, Prepared(c, groupId, leaderId));
            LoadOrMigrate(k, m, c, groupId, leaderId) ==
            (m1, if w == Updated then Migrated else w, if w == Updated then Some(Prepared(c, groupId, leaderId)) else None)
    ensures Write(k, m, 0, Prepared(c, groupId, leaderId)).1 != Created
  {
    PreparedIsValid(c, groupId, leaderId);
    UnusedLoads(k, m);
    hide PrepareRoster, ValidRoster, Load, Unused, SaveSlot, Sync, WriteCommit, CommitBytes;
  }

  // Whatever fails or tears in the first migration of an unused medium, it leaves the second slot and
  // the record consistent with the first slot; when the first slot can be read, as it can whenever
  // success was reported, the store is ready and holds the prepared roster.
  lemma MigrationInitialises(k: Codec, m: RosterFlash, c: Configuration, groupId: string, leaderId: string)
    requires RoundTrips(k) && Unused(k, m) && TearsVisibly(k, m.faults) && Migratable(k, c, groupId, leaderId)
    ensures var (m1, r, handed) := LoadOrMigrate(k, m, c, groupId, leaderId);
            var stored := k.stored(Prepared(c, groupId, leaderId));
            var first := FirstSlot(k, NextFault(m), stored);
            && Migrating(k, m1, first) && TearsVisibly(k, m1.faults)
            && (first.Read? ==> Ready(k, m1) && Current(ImageOf(k, m1)) == Holds(1, stored))
            && (r == Migrated || r == StorageFailed) && (m.faults == [] ==> r == Migrated)
            && (r == Migrated ==> first.Read? && handed == Some(Prepared(c, groupId, leaderId)))
  {
    var roster := Prepared(c, groupId, leaderId);
    assert k.stored(roster).generation == 1 by { assert k.encode(roster).Some?; }
    NextHarmless(k, m);
    hide RoundTrips, Unused, TearsVisibly, Migrating, Ready, Current, Prepared, Migratable, Write, LoadOrMigrate;
    WriteOutcomeOf(k, m, c, groupId, leaderId);
    UnusedMigrates(k, m, c, groupId, leaderId);
    if FirstSlot(k, NextFault(m), k.stored(roster)).Read? {
      MigratingIsReady(k, LoadOrMigrate(k, m, c, groupId, leaderId).0, k.stored(roster));
    }
  }

  lemma WriteOutcomeOf(k: Codec, m: RosterFlash, c: Configuration, groupId: string, leaderId: string)
    requires RoundTrips(k) && Unused(k, m) && TearsVisibly(k, m.faults) && Migratable(k, c, groupId, leaderId)
    ensures var (m1, r) := Write(k, m, 0, Prepared(c, groupId, leaderId));
            && Migrating(k, m1, FirstSlot(k, NextFault(m), k.stored(Prepared(c, groupId, leaderId)))) && TearsVisibly(k, m1.faults)
            && (r == Updated || r == StorageFailed) && (r == Updated ==> NextFault(m).Works?)
            && (m.faults == [] ==> r == Updated)
  {
    hide RoundTrips, Unused, TearsVisibly, Migrating, Write, FirstSlot, PrepareRoster;
    WriteOutcome(k, m, Prepared(c, groupId, leaderId));
  }

  lemma SpoiledLoads(k: Codec, m: RosterFlash, first: Decoded)
    requires Migrating(k, m, first) && !first.Read?
    ensures Load(k, m) == (m, Failure(first, NoData), None)
    ensures Failure(first, NoData) == Empty <==> first.NoData?
  {
    hide DecodeCommit;
  }

  // Main result: after a first migration that failed or tore anywhere, a later one on a medium that works
  // completes it, unless the failed one left torn bytes in the first slot that do not read as empty.
  // Then every later migration, load and update fails and changes nothing.
  lemma MigrationRecovers(k: Codec, m: RosterFlash, c: Configuration, groupId: string, leaderId: string)
    requires RoundTrips(k) && Unused(k, m) && TearsVisibly(k, m.faults) && Migratable(k, c, groupId, leaderId)
    ensures var m1 := LoadOrMigrate(k, m, c, groupId, leaderId).0.(faults := []);
            var (m2, _, roster) := LoadOrMigrate(k, m1, c, groupId, leaderId);
            && Sound(m1)
            && (roster.Some? <==> !Spoils(k, m.faults))
            && (!Spoils(k, m.faults) ==>
                  Ready(k, m2) && Current(ImageOf(k, m2)) == Holds(1, k.stored(Prepared(c, groupId, leaderId))))
            && (Spoils(k, m.faults) ==>
                  && m2 == m1 && Load(k, m1).0 == m1 && Load(k, m1).2 == None
                  && forall other: Roster :: Update(k, m1, other).0 == m1)
  {
    MigrationInitialises(k, m, c, groupId, leaderId);
    var roster := Prepared(c, groupId, leaderId);
    var first := FirstSlot(k, NextFault(m), k.stored(roster));
    var m1 := LoadOrMigrate(k, m, c, groupId, leaderId).0.(faults := []);
    NextHarmless(k, m);
    WithoutFaults(k, LoadOrMigrate(k, m, c, groupId, leaderId).0, first);
    hide RoundTrips, TearsVisibly, Migratable, Prepared, PrepareRoster, Write, Create, Load, ImageOf, Current, Ready, ReadCommit, SlotContent;
    if first.Read? {
      ReadyAgain(k, m1);
    } else {
      SpoiledLoads(k, m1, first);
      if first.NoData? {
        MigrationInitialises(k, m1, c, groupId, leaderId);
      }
    }
  }

  lemma WithoutFaults(k: Codec, m: RosterFlash, first: Decoded)
    requires Migrating(k, m, first)
    ensures Migrating(k, m.(faults := []), first) && TearsVisibly(k, [])
    ensures first.NoData? ==> Unused(k, m.(faults := []))
    ensures Ready(k, m) ==> Ready(k, m.(faults := [])) && ImageOf(k, m.(faults := [])) == ImageOf(k, m)
  {
    hide DecodeCommit;
  }

  lemma ReadyAgain(k: Codec, m: RosterFlash)
    requires RoundTrips(k) && Ready(k, m) && m.faults == []
    ensures Sound(m) && Load(k, m).2.Some? && Load(k, m).1 != Empty
    ensures Ready(k, Load(k, m).0) && Current(ImageOf(k, Load(k, m).0)) == Current(ImageOf(k, m))
  {
    hide Load, ImageOf, Current, RoundTrips, Ready, Pointed, TearsVisibly;
    IsSound(k, m);
    LoadSafe(k, m);
    LoadRefines(k, m);
  }
}
