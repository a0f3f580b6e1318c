/** Whole runs of a device: packages arrive, keyrings are staged and committed, writes fail,
    the power goes.  What the committed keyring can and cannot become. */
module TrustRuns {
  import opened Wrappers
  import opened Bytes
  import opened FirmwareTrust
  import opened TrustCodec
  import opened Flash
  import opened TrustMedium

  // What the commit record designates.
  function Committed(m: TrustFlash): Option<Snapshot>
    requires Sound(m)
  {
    match ReadCommit(m)
    case None => None
    case Some(c) => if Names(c, LoadSlot(m, c.slot)) then Some(LoadSlot(m, c.slot).snapshot) else None
  }

  // ---------------------------------------------------------------- single calls, any faults

  // With a commit record present, a load gives the committed keyring or nothing, and writes nothing.
  lemma LoadNeverFallsBack(m: TrustFlash)
    requires Sound(m) && m.commit.Some?
    ensures match Committed(m)
            case Some(s) => Load(m) == (m, Loaded, s)
            case None => Load(m) == (m, Corrupt, NO_SNAPSHOT)
  {
  }

  // Without one, the highest generation is adopted, staged or not.
  lemma LoadWithoutCommit(m: TrustFlash)
    requires Sound(m) && m.commit.None? && (LoadSlot(m, 0).LOADED? || LoadSlot(m, 1).LOADED?)
    ensures var s := Load(m).2;
            && (exists slot | 0 <= slot <= 1 :: LoadSlot(m, slot) == LOADED(s))
            && forall slot | 0 <= slot <= 1 && LoadSlot(m, slot).LOADED? ::
                 LoadSlot(m, slot).snapshot.generation <= s.generation
    ensures NextFault(m).Works? ==> Committed(Load(m).0) == Some(Load(m).2)
  {
    hide DecodeSlot, DecodeCommit, CommitBytes, ValidState;
    var repaired := Newer(LoadSlot(m, 0), LoadSlot(m, 1));
    var s := Load(m).2;
    assert LoadSlot(m, repaired) == LOADED(s);
    LoadedIsGood(m, repaired);
    CommitRoundTrip(CommitRecord(repaired, s.generation, s.state.trustRevision));
  }

  lemma LoadedIsGood(m: TrustFlash, slot: nat)
    requires Sound(m) && slot <= 1 && LoadSlot(m, slot).LOADED?
    ensures var s := LoadSlot(m, slot).snapshot;
            s.generation != 0 && ValidState(s.state) && s.state.trustRevision != 0
  {
  }

  lemma StageKeepsCommitted(m: TrustFlash, next: TrustState, snapshot: Snapshot)
    requires Sound(m) && Committed(m).Some?
    ensures var (m1, r, staged) := StageUpdate(m, next, snapshot);
            && Sound(m1) && Committed(m1) == Committed(m) && m1.commit == m.commit
            && (staged.Some? <==> r == StagedOk)
            && (staged.Some? ==>
                var s := staged.value;
                && s.slot == 1 - ReadCommit(m).value.slot && s.trustRevision == next.trustRevision
                && s.generation == Committed(m).value.generation + 1
                && snapshot.generation == Committed(m).value.generation
                && LoadSlot(m1, s.slot) == LOADED(Snapshot(s.generation, next)))
  {
    hide DecodeSlot, SlotBytes, ValidState, DecodeCommit;
    var c := ReadCommit(m).value;
    if ValidState(next) && Wrap32(c.generation + 1) != 0 {
      SlotRoundTrip(next, Wrap32(c.generation + 1));
    }
  }

  // The commit is one record: before it is written the old keyring stands, after it the staged one.
  lemma CommitIsAtomic(m: TrustFlash, staged: Option<Staged>, snapshot: Snapshot)
    requires Sound(m) && Committed(m).Some? && AtomicCommits(m)
    ensures var (m1, r, current) := CommitStaged(m, staged, snapshot);
            && Sound(m1) && m1.slots == m.slots
            && (m1.commit == m.commit ==> Committed(m1) == Committed(m) && r != Updated)
            && (m1.commit != m.commit ==>
                && staged.Some? && staged.value.slot == 1 - ReadCommit(m).value.slot
                && staged.value.generation == Committed(m).value.generation + 1
                && snapshot.generation == Committed(m).value.generation
                && LoadSlot(m, staged.value.slot).LOADED?
                && Committed(m1) == Some(LoadSlot(m, staged.value.slot).snapshot)
                && Committed(m1).value.generation == staged.value.generation)
            && (if r == Updated then Committed(m1) == Some(current) else current == snapshot)
  {
    hide DecodeSlot, DecodeCommit, CommitBytes;
    if staged.Some? && staged.value.slot <= 1 {
      var s := staged.value;
      var next := CommitRecord(s.slot, s.generation, s.trustRevision);
      if Names(next, LoadSlot(m, s.slot)) && s.generation != 0 {
        LoadedIsGood(m, s.slot);
        CommitRoundTrip(next);
      }
    }
  }

  // The checks a commit makes before it writes.
  predicate Passes(m: TrustFlash, staged: Option<Staged>, snapshot: Snapshot)
    requires Sound(m)
  {
    && staged.Some? && staged.value.slot <= 1 && staged.value.generation != 0 && snapshot.generation != 0
    && ReadCommit(m).Some?
    && var c, s := ReadCommit(m).value, staged.value;
       && c.generation == snapshot.generation && c.trustRevision == snapshot.state.trustRevision
       && s.slot != c.slot && s.generation == Wrap32(c.generation + 1)
       && Names(CommitRecord(s.slot, s.generation, s.trustRevision), LoadSlot(m, s.slot))
  }

  // The medium writes the commit record and then reports a failure, of the write or of the sync.
  predicate WrittenButFailed(faults: seq<TrustFault>) {
    && faults != []
    && (faults[0].WritesButFails? || (faults[0].Works? && |faults| > 1 && !faults[1].Works?))
  }

  lemma CommitWrites(m: TrustFlash, staged: Option<Staged>, snapshot: Snapshot)
    requires Sound(m)
    ensures !Passes(m, staged, snapshot) ==> CommitStaged(m, staged, snapshot).0 == m
    ensures Passes(m, staged, snapshot) ==>
              var data := CommitBytes(CommitRecord(staged.value.slot, staged.value.generation, staged.value.trustRevision));
              var (m1, ok) := WriteCommit(m, data);
              && m.commit != Some(data) && CommitStaged(m, staged, snapshot).0 == m1
              && (ok <==> CommitStaged(m, staged, snapshot).1 == Updated)
  {
    hide DecodeSlot, DecodeCommit, CommitBytes, WriteCommit;
    if Passes(m, staged, snapshot) {
      CommitRecordChanges(m, staged.value, snapshot);
    }
  }

  lemma WriteCases(m: TrustFlash, data: Commit)
    requires AtomicCommits(m) && m.commit != Some(data)
    ensures var (m1, ok) := WriteCommit(m, data);
            && (ok ==> m1.commit == Some(data))
            && (WrittenButFailed(m.faults) <==> !ok && m1.commit != m.commit)
  {
  }

  // Main result: after a commit the memory is the committed keyring, unless the commit passed its
  // checks and its record was written although the call failed.
  lemma CommitLeavesCurrent(m: TrustFlash, staged: Option<Staged>, snapshot: Snapshot)
    requires Sound(m) && Committed(m) == Some(snapshot) && AtomicCommits(m)
    ensures var (m1, _, current) := CommitStaged(m, staged, snapshot);
            Committed(m1) == Some(current) <==> !(Passes(m, staged, snapshot) && WrittenButFailed(m.faults))
  {
    CommitIsAtomic(m, staged, snapshot);
    CommitWrites(m, staged, snapshot);
    if Passes(m, staged, snapshot) {
      WriteCases(m, CommitBytes(CommitRecord(staged.value.slot, staged.value.generation, staged.value.trustRevision)));
    }
    hide CommitStaged, Passes, WriteCommit, CommitBytes, WrittenButFailed, Committed, AtomicCommits, LoadSlot, ReadCommit;
  }

  lemma CommitRecordChanges(m: TrustFlash, s: Staged, snapshot: Snapshot)
    requires Sound(m) && Passes(m, Some(s), snapshot)
    ensures m.commit != Some(CommitBytes(CommitRecord(s.slot, s.generation, s.trustRevision)))
  {
    hide DecodeSlot, DecodeCommit, CommitBytes;
    LoadedIsGood(m, s.slot);
    CommitRoundTrip(CommitRecord(s.slot, s.generation, s.trustRevision));
  }

  // Memory that is behind the record can neither stage nor commit.
  lemma StaleIsStuck(m: TrustFlash, next: TrustState, staged: Option<Staged>, snapshot: Snapshot)
    requires Sound(m) && Committed(m).Some? && snapshot.generation != Committed(m).value.generation
    ensures StageUpdate(m, next, snapshot).0 == m && StageUpdate(m, next, snapshot).1 != StagedOk
    ensures CommitStaged(m, staged, snapshot).0 == m && CommitStaged(m, staged, snapshot).1 != Updated
    ensures CommitStaged(m, staged, snapshot).2 == snapshot
  {
    hide DecodeSlot, DecodeCommit, CommitBytes;
  }

  lemma CommittedLoads(m: TrustFlash, faults: seq<TrustFault>)
    requires Sound(m) && Committed(m).Some?
    ensures Load(m.(faults := faults)).1 == Loaded && Load(m.(faults := faults)).2 == Committed(m).value
  {
    hide DecodeSlot, DecodeCommit;
    LoadNeverFallsBack(m.(faults := faults));
  }

  predicate Follows(s: Snapshot, was: Snapshot, next: TrustState) {
    s.generation == was.generation + 1 && s.state == next
  }

  // Main result: whatever fails in an update, and wherever it stops, the next load gives the old
  // keyring or the new one, and the new one when the update reported success.
  lemma UpdateThenLoads(m: TrustFlash, next: TrustState, snapshot: Snapshot, was: Snapshot, faults: seq<TrustFault>)
    requires Sound(m) && Committed(m) == Some(was) && AtomicCommits(m)
    ensures Sound(Update(m, next, snapshot).0)
    ensures var (m1, r, current) := Update(m, next, snapshot);
            var (_, l, s) := Load(m1.(faults := faults));
            && l == Loaded && (s == was || Follows(s, was, next))
            && (r == Updated ==> s == current && Follows(s, was, next))
  {
    hide *;
    UpdateCommits(m, next, snapshot);
    CommittedLoads(Update(m, next, snapshot).0, faults);
  }

  lemma UpdateCommits(m: TrustFlash, next: TrustState, snapshot: Snapshot)
    requires Sound(m) && Committed(m).Some? && AtomicCommits(m)
    ensures var (m1, r, current) := Update(m, next, snapshot);
            && Sound(m1) && Committed(m1).Some?
            && var s := Committed(m1).value;
               && (s == Committed(m).value || Follows(s, Committed(m).value, next))
               && (r == Updated ==> s == current && Follows(s, Committed(m).value, next))
  {
    StageKeepsCommitted(m, next, snapshot);
    StageSpends(m, next, snapshot);
    var (m1, stage, staged) := StageUpdate(m, next, snapshot);
    CommitIsAtomic(m1, staged, snapshot);
    hide StageUpdate, CommitStaged, ReadCommit, LoadSlot, AtomicCommits, Committed;
  }

  lemma StageSpends(m: TrustFlash, next: TrustState, snapshot: Snapshot)
    requires Sound(m) && AtomicCommits(m)
    ensures AtomicCommits(StageUpdate(m, next, snapshot).0) && StageUpdate(m, next, snapshot).1 != Updated
  {
    hide DecodeCommit, SlotBytes, ValidState;
  }

  // An accepted decision that asks for a keyring update, staged against the keyring it was made
  // on, is never refused for what it says; only the generation counter or the medium can refuse it.
  lemma AcceptedIsStorable(m: TrustFlash, current: Snapshot, p: Package, rootId: KeyId, rootKey: PublicKey, v: Verifier)
    requires Sound(m) && Committed(m) == Some(current)
    requires var d := Evaluate(p, current.state, rootId, rootKey, v); d.Accepted? && d.updateRequired
    ensures var next := Evaluate(p, current.state, rootId, rootKey, v).next;
            var (m1, r, _) := StageUpdate(m, next, current);
            && (r == InvalidState <==> current.generation == 0xFFFF_FFFF)
            && r in {StagedOk, StorageFailed, InvalidState}
            && (m.faults == [] && r != InvalidState ==>
                Update(m, next, current).1 == Updated &&
                Update(m, next, current).2 == Snapshot(current.generation + 1, next) &&
                Committed(Update(m, next, current).0) == Some(Snapshot(current.generation + 1, next)))
  {
    hide DecodeSlot, SlotBytes, ValidState, DecodeCommit, CommitBytes, Evaluate;
    var next := Evaluate(p, current.state, rootId, rootKey, v).next;
    AcceptedAdvances(p, current.state, rootId, rootKey, v);
    LoadedIsGood(m, ReadCommit(m).value.slot);
    StageKeepsCommitted(m, next, current);
    var (m1, r, staged) := StageUpdate(m, next, current);
    if m.faults == [] && r != InvalidState {
      CommitIsAtomic(m1, staged, current);
      StagedThenCommitted(m, next, current);
    }
  }

  lemma StagedThenCommitted(m: TrustFlash, next: TrustState, current: Snapshot)
    requires Sound(m) && Committed(m) == Some(current) && m.faults == []
    requires ValidState(next) && Older(current.state, next) && current.generation < 0xFFFF_FFFF
    ensures Update(m, next, current).1 == Updated
    ensures Update(m, next, current).2 == Snapshot(current.generation + 1, next)
  {
    hide DecodeSlot, SlotBytes, ValidState, DecodeCommit, CommitBytes;
    LoadedIsGood(m, ReadCommit(m).value.slot);
    StageKeepsCommitted(m, next, current);
  }

  // ---------------------------------------------------------------- runs

  datatype Config = Config(rootId: KeyId, rootKey: PublicKey, v: Verifier)

  // The medium, the keyring held in memory, the decision of the current upload and its staging.
  datatype Node = Node(medium: TrustFlash, ram: Option<Snapshot>, decision: Option<TrustState>, staged: Option<Staged>)

  datatype Event =
    | Arrive(p: Package)              // a package is evaluated against the keyring in memory
    | Stage(faults: seq<TrustFault>)
    | Commit(faults: seq<TrustFault>)
    | Reboot(faults: seq<TrustFault>)      // memory is lost and the store is loaded again

  predicate AtomicEvent(e: Event) {
    e.Commit? ==> forall i | 0 <= i < |e.faults| :: !e.faults[i].TearsCommit?
  }

  predicate AtomicRun(events: seq<Event>) {
    forall i | 0 <= i < |events| :: AtomicEvent(events[i])
  }

  function Judge(p: Package, n: Node, cfg: Config): Decision
    requires n.ram.Some?
  {
    Evaluate(p, n.ram.value.state, cfg.rootId, cfg.rootKey, cfg.v)
  }

  function Step(n: Node, e: Event, cfg: Config): Node
    requires Sound(n.medium)
  {
    match e
    case Arrive(p) =>
      if n.ram.None? then n
      else
        var d := Judge(p, n, cfg);
        n.(decision := if d.Accepted? && d.updateRequired then Some(d.next) else None, staged := None)
    case Stage(faults) =>
      if n.ram.None? || n.decision.None? then n
      else
        var (m, _, staged) := StageUpdate(n.medium.(faults := faults), n.decision.value, n.ram.value);
        n.(medium := m, staged := staged)
    case Commit(faults) =>
      if n.ram.None? then n
      else
        var (m, _, current) := CommitStaged(n.medium.(faults := faults), n.staged, n.ram.value);
        Node(m, Some(current), None, None)
    case Reboot(faults) =>
      var (m, r, s) := Load(n.medium.(faults := faults));
      Node(m, if r == Loaded || r == CommitRepaired then Some(s) else None, None, None)
  }

  // The later keyring is the same one or a strictly newer one that forgets no revocation.
  ghost predicate Advances(a: Snapshot, b: Snapshot) {
    a == b ||
    (Older(a.state, b.state) && KeepsRevoked(a.state, b.state) && a.generation < b.generation)
  }

  ghost predicate Inv(n: Node) {
    && Sound(n.medium) && Committed(n.medium).Some?
    && var c := Committed(n.medium).value;
       && (n.ram.Some? ==>
           ValidState(n.ram.value.state) && (n.ram.value == c || n.ram.value.generation < c.generation))
       && (n.decision.Some? ==>
           n.ram.Some? && Older(n.ram.value.state, n.decision.value) && KeepsRevoked(n.ram.value.state, n.decision.value))
       && (n.staged.Some? ==> StagedWell(n.medium, c, n.staged.value))
  }

  // A staging that can still be committed holds a successor of the committed keyring.
  ghost predicate StagedWell(m: TrustFlash, c: Snapshot, s: Staged)
    requires Sound(m) && Committed(m) == Some(c)
  {
    s.slot == 1 - ReadCommit(m).value.slot && s.generation == c.generation + 1 ==>
      var r := LoadSlot(m, s.slot);
      r.LOADED? ==> Older(c.state, r.snapshot.state) && KeepsRevoked(c.state, r.snapshot.state)
  }

  function Now(n: Node): Snapshot
    requires Sound(n.medium) && Committed(n.medium).Some?
  {
    Committed(n.medium).value
  }

  // Memory and record agree.
  ghost predicate Current(n: Node)
    requires Sound(n.medium)
  {
    n.ram.Some? && n.ram == Committed(n.medium)
  }

  // A commit that passes its checks and is written although it fails.
  predicate Slips(n: Node, e: Event)
    requires Sound(n.medium)
  {
    && e.Commit? && n.ram.Some?
    && Passes(n.medium.(faults := e.faults), n.staged, n.ram.value) && WrittenButFailed(e.faults)
  }

  lemma ArriveKeeps(n: Node, p: Package, cfg: Config)
    requires Inv(n)
    ensures var n' := Step(n, Arrive(p), cfg); Inv(n') && n'.medium == n.medium && n'.ram == n.ram
  {
    hide Evaluate, Committed, ValidState;
    if n.ram.Some? && Judge(p, n, cfg).Accepted? {
      AcceptedAdvances(p, n.ram.value.state, cfg.rootId, cfg.rootKey, cfg.v);
    }
  }

  lemma StageKeeps(n: Node, faults: seq<TrustFault>, cfg: Config)
    requires Inv(n)
    ensures var n' := Step(n, Stage(faults), cfg); Inv(n') && Now(n') == Now(n) && n'.ram == n.ram
  {
    hide StageUpdate, DecodeSlot, DecodeCommit, ValidState;
    if n.ram.Some? && n.decision.Some? {
      StageKeepsCommitted(n.medium.(faults := faults), n.decision.value, n.ram.value);
    }
  }

  lemma CommitKeeps(n: Node, faults: seq<TrustFault>, cfg: Config)
    requires Inv(n) && AtomicEvent(Commit(faults))
    ensures var n' := Step(n, Commit(faults), cfg);
            Inv(n') && Advances(Now(n), Now(n')) && (Current(n') <==> Current(n) && !Slips(n, Commit(faults)))
  {
    hide CommitStaged, DecodeSlot, DecodeCommit, ValidState, Passes;
    if n.ram.Some? {
      var m := n.medium.(faults := faults);
      assert Committed(m) == Committed(n.medium);
      CommitIsAtomic(m, n.staged, n.ram.value);
      CommittedIsValid(CommitStaged(m, n.staged, n.ram.value).0);
      if Current(n) {
        CommitLeavesCurrent(m, n.staged, n.ram.value);
      } else {
        StaleIsStuck(m, n.ram.value.state, n.staged, n.ram.value);
      }
    }
  }

  lemma CommittedIsValid(m: TrustFlash)
    requires Sound(m) && Committed(m).Some?
    ensures ValidState(Committed(m).value.state)
  {
    hide DecodeCommit;
    LoadedIsGood(m, ReadCommit(m).value.slot);
  }

  lemma RebootKeeps(n: Node, faults: seq<TrustFault>, cfg: Config)
    requires Inv(n)
    ensures var n' := Step(n, Reboot(faults), cfg); Inv(n') && Now(n') == Now(n) && Current(n')
  {
    hide DecodeSlot, DecodeCommit, ValidState;
    CommittedIsValid(n.medium);
    LoadNeverFallsBack(n.medium.(faults := faults));
  }

  lemma StepAdvances(n: Node, e: Event, cfg: Config)
    requires Inv(n) && AtomicEvent(e)
    ensures var n' := Step(n, e, cfg);
            Inv(n') && Advances(Now(n), Now(n')) && (Current(n') <==> e.Reboot? || (Current(n) && !Slips(n, e)))
  {
    assert Sound(n.medium);
    hide Step, Inv, Committed, Passes;
    match e
    case Arrive(p) => ArriveKeeps(n, p, cfg);
    case Stage(faults) => StageKeeps(n, faults, cfg);
    case Commit(faults) => CommitKeeps(n, faults, cfg);
    case Reboot(faults) => RebootKeeps(n, faults, cfg);
  }

  // A node is good once its store was created or loaded, whatever the medium held before.
  lemma CreatedIsGood(m: TrustFlash, initial: TrustState)
    requires Sound(m)
    ensures var (m1, r, s) := Create(m, initial);
            && (r == Created <==> s.Some?)
            && (r == Created ==>
                var n := Node(m1, s, None, None);
                Inv(n) && Current(n) && Now(n) == Snapshot(1, initial))
  {
    hide DecodeSlot, DecodeCommit, SlotBytes, CommitBytes, ValidState;
    if ValidState(initial) {
      HasRevision(initial);
      SlotRoundTrip(initial, 1);
      CommitRoundTrip(CommitRecord(0, 1, initial.trustRevision));
    }
  }

  lemma HasRevision(s: TrustState)
    requires ValidState(s)
    ensures s.trustRevision != 0
  {
  }

  lemma LoadedIsReady(m: TrustFlash)
    requires Sound(m)
    ensures var (m1, r, s) := Load(m);
            r == Loaded || r == CommitRepaired ==>
              var n := Node(m1, Some(s), None, None); Inv(n) && Current(n)
  {
    hide DecodeSlot, DecodeCommit, CommitBytes, ValidState;
    if m.commit.Some? {
      if Committed(m).Some? { CommittedIsValid(m); }
    } else if Load(m).1 == CommitRepaired {
      LoadWithoutCommit(m);
      CommittedIsValid(Load(m).0);
    }
  }

  function Run(n: Node, events: seq<Event>, cfg: Config): (r: Node)
    requires Sound(n.medium)
    ensures Sound(r.medium)
    decreases |events|
  {
    if events == [] then n
    else
      var n' := Run(n, events[..|events| - 1], cfg);
      StepSound(n', events[|events| - 1], cfg);
      Step(n', events[|events| - 1], cfg)
  }

  lemma StepSound(n: Node, e: Event, cfg: Config)
    requires Sound(n.medium)
    ensures Sound(Step(n, e, cfg).medium)
  {
    hide ValidState, SlotBytes, DecodeCommit, CommitBytes, DecodeSlot, Evaluate;
  }

  // Over any run the committed keyring only advances: the trust revision and then the epoch rise,
  // generations rise, and revocations accumulate.
  lemma {:induction false} RunAdvances(n: Node, events: seq<Event>, cfg: Config)
    requires Inv(n) && AtomicRun(events)
    ensures var n' := Run(n, events, cfg); Inv(n') && Advances(Now(n), Now(n'))
    decreases |events|
  {
    assert Sound(n.medium);
    hide Inv, Step, Now;
    if events != [] {
      var before := events[..|events| - 1];
      RunAdvances(n, before, cfg);
      StepAdvances(Run(n, before, cfg), events[|events| - 1], cfg);
    }
  }

  lemma StageWorks(m: TrustFlash, next: TrustState, snapshot: Snapshot)
    requires Sound(m) && Committed(m) == Some(snapshot) && m.faults == []
    requires ValidState(next) && Older(snapshot.state, next) && snapshot.generation < 0xFFFF_FFFF
    ensures StageUpdate(m, next, snapshot).1 == StagedOk
  {
    hide DecodeSlot, DecodeCommit, SlotBytes, ValidState;
    LoadedIsGood(m, ReadCommit(m).value.slot);
  }

  lemma StagedPasses(m: TrustFlash, next: TrustState, snapshot: Snapshot)
    requires Sound(m) && Committed(m) == Some(snapshot) && StageUpdate(m, next, snapshot).1 == StagedOk
    ensures var (m1, _, staged) := StageUpdate(m, next, snapshot);
            && Sound(m1) && Committed(m1) == Some(snapshot) && Passes(m1, staged, snapshot)
            && LoadSlot(m1, staged.value.slot).LOADED?
            && Follows(LoadSlot(m1, staged.value.slot).snapshot, snapshot, next)
  {
    hide StageUpdate, DecodeSlot, DecodeCommit, ValidState, LoadSlot;
    StageKeepsCommitted(m, next, snapshot);
    LoadedIsGood(m, ReadCommit(m).value.slot);
  }

  lemma StageStep(n: Node, faults: seq<TrustFault>, cfg: Config)
    requires Sound(n.medium) && n.ram.Some? && n.decision.Some?
    ensures var (m, _, staged) := StageUpdate(n.medium.(faults := faults), n.decision.value, n.ram.value);
            Step(n, Stage(faults), cfg) == n.(medium := m, staged := staged)
  {
    hide StageUpdate;
  }

  lemma CommitStep(n: Node, faults: seq<TrustFault>, cfg: Config)
    requires Sound(n.medium) && n.ram.Some?
    ensures var (m, _, current) := CommitStaged(n.medium.(faults := faults), n.staged, n.ram.value);
            Step(n, Commit(faults), cfg) == Node(m, Some(current), None, None)
  {
    hide CommitStaged;
  }

  // Every device whose memory is current and that is due an update can slip: when the update's record
  // is written by a failing call, the new keyring is committed and the old one stays in memory.
  lemma SlipLeavesStale(n: Node, cfg: Config)
    requires Inv(n) && Current(n) && n.decision.Some? && ValidState(n.decision.value)
    requires Now(n).generation < 0xFFFF_FFFF
    ensures var n1 := Step(n, Stage([]), cfg);
            && Sound(n1.medium)
            && var n2 := Step(n1, Commit([WritesButFails]), cfg);
               && n2.ram == n.ram && Sound(n2.medium) && Committed(n2.medium).Some?
               && Follows(Committed(n2.medium).value, Now(n), n.decision.value)
  {
    var next, current := n.decision.value, n.ram.value;
    var m := n.medium.(faults := []);
    OtherFaults(n.medium, []);
    hide StageUpdate, ValidState, Passes, Step, Committed, LoadSlot, CommitStaged;
    StageWorks(m, next, current);
    StagedPasses(m, next, current);
    StageStep(n, [], cfg);
    var n1 := Step(n, Stage([]), cfg);
    OtherFaults(n1.medium, [WritesButFails]);
    SlippedCommit(n1.medium.(faults := [WritesButFails]), n1.staged, current);
    CommitStep(n1, [WritesButFails], cfg);
  }

  lemma OtherFaults(m: TrustFlash, faults: seq<TrustFault>)
    requires Sound(m)
    ensures Sound(m.(faults := faults)) && Committed(m.(faults := faults)) == Committed(m)
    ensures forall slot: nat | slot <= 1 :: LoadSlot(m.(faults := faults), slot) == LoadSlot(m, slot)
    ensures forall staged, snapshot: Snapshot :: Passes(m.(faults := faults), staged, snapshot) == Passes(m, staged, snapshot)
  {
    hide DecodeSlot, DecodeCommit;
  }

  lemma SlippedCommit(m: TrustFlash, staged: Option<Staged>, snapshot: Snapshot)
    requires Sound(m) && Committed(m) == Some(snapshot) && m.faults == [WritesButFails] && Passes(m, staged, snapshot)
    ensures var (m1, _, current) := CommitStaged(m, staged, snapshot);
            current == snapshot && Sound(m1) && Committed(m1) == Some(LoadSlot(m, staged.value.slot).snapshot)
  {
    CommitIsAtomic(m, staged, snapshot);
    CommitWrites(m, staged, snapshot);
    CommitLeavesCurrent(m, staged, snapshot);
    hide CommitStaged, DecodeSlot, DecodeCommit, CommitBytes;
  }

  // The last load of the run, or its start, found the memory current, and no commit since slipped.
  ghost predicate NoSlipSinceLoad(n: Node, events: seq<Event>, cfg: Config)
    requires Sound(n.medium)
    decreases |events|
  {
    if events == [] then Current(n)
    else
      var before, last := events[..|events| - 1], events[|events| - 1];
      last.Reboot? || (NoSlipSinceLoad(n, before, cfg) && !Slips(Run(n, before, cfg), last))
  }

  // Main result: which runs end with the committed keyring in memory.
  lemma {:induction false} CurrentExactly(n: Node, events: seq<Event>, cfg: Config)
    requires Inv(n) && AtomicRun(events)
    ensures Current(Run(n, events, cfg)) <==> NoSlipSinceLoad(n, events, cfg)
    decreases |events|
  {
    assert Sound(n.medium);
    hide Inv, Step, Current, Slips;
    if events != [] {
      var before := events[..|events| - 1];
      CurrentExactly(n, before, cfg);
      RunAdvances(n, before, cfg);
      StepAdvances(Run(n, before, cfg), events[|events| - 1], cfg);
    }
  }

  // The same on what the medium does alone: since the last load, or since a start with current
  // memory, no record is written by a call that fails.
  predicate CleanSinceLoad(current: bool, events: seq<Event>)
    decreases |events|
  {
    if events == [] then current
    else
      var last := events[|events| - 1];
      last.Reboot? ||
      (CleanSinceLoad(current, events[..|events| - 1]) && (last.Commit? ==> !WrittenButFailed(last.faults)))
  }

  lemma {:induction false} CleanRunsKeepCurrent(n: Node, events: seq<Event>, cfg: Config)
    requires Inv(n) && AtomicRun(events) && CleanSinceLoad(Current(n), events)
    ensures Current(Run(n, events, cfg))
    decreases |events|
  {
    assert Sound(n.medium);
    hide Inv, Step, Current, Passes, WrittenButFailed;
    if events != [] {
      var before := events[..|events| - 1];
      RunAdvances(n, before, cfg);
      StepAdvances(Run(n, before, cfg), events[|events| - 1], cfg);
      if !events[|events| - 1].Reboot? {
        CleanRunsKeepCurrent(n, before, cfg);
      }
    }
  }

  // Main result: a package signed under an id that was revoked at any earlier time of the run is
  // refused, unless a record was written by a failing call since the last load.
  lemma RevokedStaysRefused(n: Node, events: seq<Event>, cfg: Config, p: Package)
    requires Inv(n) && AtomicRun(events) && RevokedIn(Now(n).state.revokedKeyIds, p.signerKeyId)
    requires CleanSinceLoad(Current(n), events)
    ensures Run(n, events, cfg).ram.Some? && Judge(p, Run(n, events, cfg), cfg).Refused?
  {
    RunAdvances(n, events, cfg);
    CleanRunsKeepCurrent(n, events, cfg);
    var n' := Run(n, events, cfg);
    assert RevokedIn(Now(n').state.revokedKeyIds, p.signerKeyId);
  }

  // Every keyring a run commits is usable: unique ids across the roles, none revoked, a release key.
  lemma CommittedStaysValid(n: Node, events: seq<Event>, cfg: Config)
    requires Inv(n) && AtomicRun(events)
    ensures var n' := Run(n, events, cfg); Inv(n') && ValidState(Now(n').state)
  {
    RunAdvances(n, events, cfg);
    LoadedIsGood(Run(n, events, cfg).medium, ReadCommit(Run(n, events, cfg).medium).value.slot);
  }
}
