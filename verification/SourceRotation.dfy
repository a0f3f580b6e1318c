/** Asking one source after another, each time marking the one asked. */
module SourceRotation {
  import opened Wrappers
  import opened Credentials
  import opened SiteConfiguration
  import opened Provisioning
  import opened CredentialSource

  predicate UniqueEndpoints(endpoints: Endpoints) {
    forall i, j | 0 <= i < j < |endpoints| ::
      endpoints[i].Some? && endpoints[j].Some? ==> endpoints[i].value.id != endpoints[j].value.id
  }

  // The bit marked after asking an endpoint.
  function Mark(s: Choice, e: Endpoint): nat {
    SlotOf(s.c.members, e.id)
  }

  // The member slots not asked yet.
  function Unasked(s: Choice, attempted: set<nat>): set<nat> {
    set k: nat | k < |s.c.members| && k !in attempted
  }

  // Marking one endpoint takes away exactly that candidate.
  lemma MarkTakesOne(s: Choice, attempted: set<nat>, e: Endpoint, x: Endpoint)
    requires Candidate(s, attempted, e)
    ensures Candidate(s, attempted + {Mark(s, e)}, x) <==> Candidate(s, attempted, x) && x.id != e.id
  {
  }

  lemma AskShrinks(s: Choice, attempted: set<nat>)
    ensures match Select(s, attempted)
            case None => true
            case Some(e) =>
              && Candidate(s, attempted, e)
              && |Unasked(s, attempted + {Mark(s, e)})| == |Unasked(s, attempted)| - 1
  {
    SelectIsBest(s, attempted);
    hide Select;
    match Select(s, attempted)
    case None =>
    case Some(e) =>
      assert Candidate(s, attempted, e);
      hide Candidate;
      assert Unasked(s, attempted + {Mark(s, e)}) == Unasked(s, attempted) - {Mark(s, e)};
  }

  // The sources asked, in order, until there is none left.
  function Rotate(s: Choice, attempted: set<nat>): seq<Endpoint>
    decreases |Unasked(s, attempted)|
  {
    AskShrinks(s, attempted);
    match Select(s, attempted)
    case None => []
    case Some(e) => [e] + Rotate(s, attempted + {Mark(s, e)})
  }

  predicate Answers(s: Choice, attempted: set<nat>, e: Endpoint) {
    Exact(s, attempted, e) || Fallback(s, attempted, e)
  }

  lemma AnswersAfter(s: Choice, attempted: set<nat>, e: Endpoint, x: Endpoint)
    requires Candidate(s, attempted, e)
    ensures Exact(s, attempted + {Mark(s, e)}, x) <==> Exact(s, attempted, x) && x.id != e.id
    ensures Answers(s, attempted + {Mark(s, e)}, x) <==> Answers(s, attempted, x) && x.id != e.id
  {
    MarkTakesOne(s, attempted, e, x);
    hide Candidate;
  }

  lemma SameEndpoint(endpoints: Endpoints, a: Endpoint, b: Endpoint)
    requires UniqueEndpoints(endpoints) && Some(a) in endpoints && Some(b) in endpoints && a.id == b.id
    ensures a == b
  {
    var i :| 0 <= i < |endpoints| && endpoints[i] == Some(a);
    var j :| 0 <= j < |endpoints| && endpoints[j] == Some(b);
  }

  // Main result: the rotation asks every usable source, and each only once.
  lemma {:induction false} RotationVisitsAll(s: Choice, attempted: set<nat>, e: Endpoint)
    requires UniqueEndpoints(s.endpoints)
    ensures e in Rotate(s, attempted) <==> Some(e) in s.endpoints && Answers(s, attempted, e)
    decreases |Unasked(s, attempted)|
  {
    AskShrinks(s, attempted);
    SelectIsBest(s, attempted);
    hide Select, Exact, Fallback, Candidate, Unasked;
    match Select(s, attempted)
    case None =>
    case Some(first) =>
      var next := attempted + {Mark(s, first)};
      AnswersAfter(s, attempted, first, e);
      RotationVisitsAll(s, next, e);
      if Some(e) in s.endpoints && e.id == first.id {
        SameEndpoint(s.endpoints, e, first);
      }
  }

  lemma {:induction false} RotationIsOnce(s: Choice, attempted: set<nat>, i: nat, j: nat)
    requires UniqueEndpoints(s.endpoints) && i < j < |Rotate(s, attempted)|
    ensures Rotate(s, attempted)[i].id != Rotate(s, attempted)[j].id
    decreases |Unasked(s, attempted)|
  {
    hide Select, Exact, Fallback, Candidate, Unasked, UniqueEndpoints, Answers;
    AskShrinks(s, attempted);
    var first := Select(s, attempted).value;
    var next := attempted + {Mark(s, first)};
    if i > 0 {
      RotationIsOnce(s, next, i - 1, j - 1);
    } else {
      var e := Rotate(s, next)[j - 1];
      RotationVisitsAll(s, next, e);
      AnswersAfter(s, attempted, first, e);
    }
  }

  lemma FirstIsExact(s: Choice, attempted: set<nat>, j: nat)
    requires UniqueEndpoints(s.endpoints) && j < |Rotate(s, attempted)| && Exact(s, attempted, Rotate(s, attempted)[j])
    ensures Exact(s, attempted, Rotate(s, attempted)[0])
  {
    hide Select, Fallback, Exact, Candidate, Unasked, UniqueEndpoints;
    SelectIsBest(s, attempted);
    RotationVisitsAll(s, attempted, Rotate(s, attempted)[j]);
  }

  // Main result: no fallback is asked while an exactly ready source remains.
  lemma {:induction false} ExactComeFirst(s: Choice, attempted: set<nat>, i: nat, j: nat)
    requires UniqueEndpoints(s.endpoints) && i < j < |Rotate(s, attempted)|
    requires Exact(s, attempted, Rotate(s, attempted)[j])
    ensures Exact(s, attempted, Rotate(s, attempted)[i])
    decreases |Unasked(s, attempted)|
  {
    hide Select, Fallback, Candidate, Unasked, Exact, UniqueEndpoints;
    AskShrinks(s, attempted);
    if i == 0 {
      FirstIsExact(s, attempted, j);
    } else {
      var first := Select(s, attempted).value;
      var next := attempted + {Mark(s, first)};
      RotationIsOnce(s, attempted, 0, j);
      AnswersAfter(s, attempted, first, Rotate(s, attempted)[j]);
      AnswersAfter(s, attempted, first, Rotate(s, next)[i - 1]);
      ExactComeFirst(s, next, i - 1, j - 1);
    }
  }

  // The number of member slots not asked bounds the rotation.
  lemma {:induction false} RotationEnds(s: Choice, attempted: set<nat>)
    ensures |Rotate(s, attempted)| <= |Unasked(s, attempted)|
    decreases |Unasked(s, attempted)|
  {
    AskShrinks(s, attempted);
    if Select(s, attempted).Some? {
      RotationEnds(s, attempted + {Mark(s, Select(s, attempted).value)});
    }
  }

  // Among the qualifying endpoints the one with the smallest id is chosen.
  lemma {:induction false} SmallestIsLeast(endpoints: Endpoints, qualifies: Endpoint -> bool, e: Endpoint)
    requires Some(e) in endpoints && qualifies(e)
    ensures var best := Smallest(endpoints, qualifies); best.Some? && !Less(e.id, best.value.id)
  {
    var n := |endpoints| - 1;
    var before := Smallest(endpoints[..n], qualifies);
    hide Less;
    if Some(e) in endpoints[..n] {
      SmallestIsLeast(endpoints[..n], qualifies, e);
      var last := endpoints[n];
      if last.Some? && qualifies(last.value) && Less(last.value.id, before.value.id) {
        if Less(e.id, last.value.id) { LessTransitive(e.id, last.value.id, before.value.id); }
      }
    } else {
      assert endpoints[n] == Some(e);
      IrreflexiveLess(e.id);
    }
  }
}
