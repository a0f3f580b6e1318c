/** Choosing which node to ask for credentials. */
module CredentialSource {
  import opened Wrappers
  import opened Bytes
  import opened Clock
  import opened Credentials
  import opened SiteConfiguration
  import opened Provisioning

  const MIN_HEARTBEAT_VERSION := 8
  const ONLINE_TIMEOUT := 8000

  datatype Endpoint = Endpoint(id: string, authenticated: bool, ipv4: U32, authenticatedAt: U32, wireVersion: Byte,
                               authorityEpoch: U32, generation: U32, digest: U64,
                               topologyRevision: U32, topologyDigest: U64, complete: bool)

  type Endpoints = seq<Option<Endpoint>>

  datatype Readiness =
    | Ready | Unauthenticated | AddressMissing | Offline | LegacyHeartbeat | AuthorityMismatch
    | GenerationMismatch | DigestMismatch | TopologyRevisionMismatch | TopologyDigestMismatch

  // One choice: the configuration and its digests, the asking node, and what it knows of others.
  datatype Choice = Choice(c: Configuration, digest: U64, topologyDigest: U64, node: string, endpoints: Endpoints,
                           credentials: Slots, preferred: string, now: U32, bootstrap: bool)

  predicate Online(e: Endpoint, now: U32) {
    e.authenticated && !TimeReached(now, Wrap32(e.authenticatedAt + ONLINE_TIMEOUT))
  }

  function ReadinessOf(s: Choice, e: Endpoint): Readiness {
    if !e.authenticated then Unauthenticated
    else if e.ipv4 == 0 then AddressMissing
    else if !Online(e, s.now) then Offline
    else if e.wireVersion < MIN_HEARTBEAT_VERSION then LegacyHeartbeat
    else if e.authorityEpoch != s.c.authorityEpoch then AuthorityMismatch
    else if e.generation != s.c.generation then GenerationMismatch
    else if e.digest != s.digest then DigestMismatch
    else if e.topologyRevision != s.c.rosterRevision then TopologyRevisionMismatch
    else if e.topologyDigest != s.topologyDigest then TopologyDigestMismatch
    else Ready
  }

  // An active node with a usable credential that has not been asked yet.  The set holds the
  // member slots of the nodes already asked.
  predicate Candidate(s: Choice, attempted: set<nat>, e: Endpoint) {
    var m := FindMember(s.c.members, e.id);
    && e.id != "" && e.id != s.node && m.Some? && m.value.kind == NamoNode && m.value.membership == Active
    && SlotOf(s.c.members, e.id) !in attempted && Usable(s.credentials, e.id)
  }

  predicate Exact(s: Choice, attempted: set<nat>, e: Endpoint) {
    Candidate(s, attempted, e) && ReadinessOf(s, e) == Ready
  }

  predicate BootstrapReady(s: Choice, e: Endpoint) {
    var m := FindMember(s.c.members, e.id);
    e.id != "" && e.ipv4 != 0 && s.c.rosterCommitted && m.Some? && m.value.kind == NamoNode && m.value.membership == Active
  }

  predicate Fallback(s: Choice, attempted: set<nat>, e: Endpoint) {
    s.bootstrap && Candidate(s, attempted, e) && BootstrapReady(s, e)
  }

  function EndpointOf(endpoints: Endpoints, id: string): (e: Option<Endpoint>)
    ensures e.Some? ==> e in endpoints && e.value.id == id
  {
    if endpoints == [] then None
    else if endpoints[0].Some? && endpoints[0].value.id == id then endpoints[0]
    else EndpointOf(endpoints[1..], id)
  }

  // The endpoint with the smallest id among those that qualify.
  function Smallest(endpoints: Endpoints, qualifies: Endpoint -> bool): (best: Option<Endpoint>)
    ensures best.Some? ==> best in endpoints && qualifies(best.value)
    ensures best.None? ==> forall e | e in endpoints && e.Some? :: !qualifies(e.value)
  {
    if endpoints == [] then None
    else
      var n := |endpoints| - 1;
      var best := Smallest(endpoints[..n], qualifies);
      assert forall e | e in endpoints :: e in endpoints[..n] || e == endpoints[n];
      Better(best, endpoints[n], qualifies)
  }

  function Better(best: Option<Endpoint>, e: Option<Endpoint>, qualifies: Endpoint -> bool): Option<Endpoint> {
    if e.Some? && qualifies(e.value) && (best.None? || Less(e.value.id, best.value.id)) then e else best
  }

  // The owner if it qualifies, else the preferred node.
  function Named(s: Choice, qualifies: Endpoint -> bool): (e: Option<Endpoint>)
    ensures e.Some? ==> e in s.endpoints && qualifies(e.value)
  {
    var owner := EndpointOf(s.endpoints, s.c.ownerId);
    var preferred := EndpointOf(s.endpoints, s.preferred);
    if owner.Some? && qualifies(owner.value) then owner
    else if s.preferred != "" && preferred.Some? && qualifies(preferred.value) then preferred
    else None
  }

  function SelectExact(s: Choice, attempted: set<nat>): Option<Endpoint> {
    var named := Named(s, e => Exact(s, attempted, e));
    if named.Some? then named
    else
      var complete := Smallest(s.endpoints, e => Exact(s, attempted, e) && e.complete);
      if complete.Some? then complete else Smallest(s.endpoints, e => Exact(s, attempted, e) && !e.complete)
  }

  function SelectFallback(s: Choice, attempted: set<nat>): Option<Endpoint> {
    var named := Named(s, e => Fallback(s, attempted, e));
    if named.Some? then named else Smallest(s.endpoints, e => Fallback(s, attempted, e))
  }

  function Select(s: Choice, attempted: set<nat>): Option<Endpoint> {
    var exact := SelectExact(s, attempted);
    if exact.Some? then exact else SelectFallback(s, attempted)
  }

  // What one selection gives: a qualifying endpoint while there is one, exact ones first.
  lemma SelectIsBest(s: Choice, attempted: set<nat>)
    ensures match Select(s, attempted)
            case Some(e) =>
              && Some(e) in s.endpoints
              && (|| Exact(s, attempted, e)
                  || (Fallback(s, attempted, e) && forall x | x in s.endpoints && x.Some? :: !Exact(s, attempted, x.value)))
            case None =>
              forall x | x in s.endpoints && x.Some? :: !Exact(s, attempted, x.value) && !Fallback(s, attempted, x.value)
  {
    hide Exact, Fallback, EndpointOf;
  }

  method LookUp(endpoints: Endpoints, id: string) returns (e: Option<Endpoint>)
    ensures e == EndpointOf(endpoints, id)
  {
    var i := 0;
    while i < |endpoints|
      invariant i <= |endpoints| && EndpointOf(endpoints[i..], id) == EndpointOf(endpoints, id)
    {
      assert endpoints[i..][1..] == endpoints[i + 1..];
      if endpoints[i].Some? && endpoints[i].value.id == id { return endpoints[i]; }
      i := i + 1;
    }
    e := None;
  }

  method SelectSource(s: Choice, attempted: set<nat>) returns (chosen: Option<Endpoint>)
    ensures chosen == Select(s, attempted)
  {
    hide Exact, Fallback, Smallest, EndpointOf, Less;
    var owner := LookUp(s.endpoints, s.c.ownerId);
    if owner.Some? && Exact(s, attempted, owner.value) { return owner; }
    var preferred := None;
    if s.preferred != "" {
      preferred := LookUp(s.endpoints, s.preferred);
      if preferred.Some? && Exact(s, attempted, preferred.value) { return preferred; }
    }
    var complete, incomplete := ScanExact(s, attempted);
    if complete.Some? || incomplete.Some? {
      return if complete.Some? then complete else incomplete;
    }
    if owner.Some? && Fallback(s, attempted, owner.value) { return owner; }
    if s.preferred != "" && preferred.Some? && Fallback(s, attempted, preferred.value) { return preferred; }
    chosen := ScanFallback(s, attempted);
  }

  method ScanExact(s: Choice, attempted: set<nat>) returns (complete: Option<Endpoint>, incomplete: Option<Endpoint>)
    ensures complete == Smallest(s.endpoints, e => Exact(s, attempted, e) && e.complete)
    ensures incomplete == Smallest(s.endpoints, e => Exact(s, attempted, e) && !e.complete)
  {
    hide Exact, Less;
    ghost var isComplete: Endpoint -> bool := e => Exact(s, attempted, e) && e.complete;
    ghost var isIncomplete: Endpoint -> bool := e => Exact(s, attempted, e) && !e.complete;
    complete, incomplete := None, None;
    for i := 0 to |s.endpoints|
      invariant complete == Smallest(s.endpoints[..i], isComplete)
      invariant incomplete == Smallest(s.endpoints[..i], isIncomplete)
    {
      assert s.endpoints[..i + 1][..i] == s.endpoints[..i];
      var e := s.endpoints[i];
      if e.None? || !Exact(s, attempted, e.value) { continue; }
      if e.value.complete {
        if complete.None? || Less(e.value.id, complete.value.id) { complete := e; }
      } else {
        if incomplete.None? || Less(e.value.id, incomplete.value.id) { incomplete := e; }
      }
    }
    assert s.endpoints[..|s.endpoints|] == s.endpoints;
  }

  method ScanFallback(s: Choice, attempted: set<nat>) returns (chosen: Option<Endpoint>)
    ensures chosen == Smallest(s.endpoints, e => Fallback(s, attempted, e))
  {
    hide Fallback, Less;
    ghost var qualifies: Endpoint -> bool := e => Fallback(s, attempted, e);
    chosen := None;
    for i := 0 to |s.endpoints|
      invariant chosen == Smallest(s.endpoints[..i], qualifies)
    {
      assert s.endpoints[..i + 1][..i] == s.endpoints[..i];
      var e := s.endpoints[i];
      if e.None? || !Fallback(s, attempted, e.value) { continue; }
      if chosen.None? || Less(e.value.id, chosen.value.id) { chosen := e; }
    }
    assert s.endpoints[..|s.endpoints|] == s.endpoints;
  }
}
