/** The fixed-slot table of participant credentials. */
module Credentials {
  import opened Wrappers
  import opened Bytes

  const MAX_ID_LENGTH := 64
  const SLOTS := 19

  type Key = k: seq<Byte> | |k| == 32 witness Zeros(32)

  datatype Credential = Credential(enabled: bool, id: string, token: U64, keyVersion: U32, key: Key)

  datatype RegistryResult = OK | INVALID_ARGUMENT | TOKEN_COLLISION | NOT_FOUND | FULL

  type Slots = seq<Option<Credential>>

  predicate Alphanumeric(c: char) {
    'A' <= c <= 'Z' || 'a' <= c <= 'z' || '0' <= c <= '9'
  }

  predicate ValidId(id: string) {
    && 0 < |id| <= MAX_ID_LENGTH && Alphanumeric(id[0])
    && forall i | 0 <= i < |id| :: Alphanumeric(id[i]) || id[i] == '-' || id[i] == '_' || id[i] == '.'
  }

  predicate ValidCredential(c: Credential) {
    ValidId(c.id) && c.token != 0 && c.keyVersion != 0
  }

  predicate HasId(slot: Option<Credential>, id: string) {
    slot.Some? && slot.value.id == id
  }

  // No two records share an id or a token.
  predicate Distinct(slots: Slots) {
    forall i, j | 0 <= i < j < |slots| ::
      slots[i].Some? && slots[j].Some? ==>
        slots[i].value.id != slots[j].value.id && slots[i].value.token != slots[j].value.token
  }

  predicate ValidSlots(slots: Slots) {
    Distinct(slots) && forall i | 0 <= i < |slots| :: slots[i].Some? ==> ValidCredential(slots[i].value)
  }

  function IndexOf(slots: Slots, id: string): (r: nat)
    ensures r <= |slots| && (r < |slots| ==> HasId(slots[r], id))
    ensures forall i | 0 <= i < r :: !HasId(slots[i], id)
  {
    if slots == [] || HasId(slots[0], id) then 0 else 1 + IndexOf(slots[1..], id)
  }

  function FirstFree(slots: Slots): (r: nat)
    ensures r <= |slots| && (r < |slots| ==> slots[r].None?)
    ensures forall i | 0 <= i < r :: slots[i].Some?
  {
    if slots == [] || slots[0].None? then 0 else 1 + FirstFree(slots[1..])
  }

  function Find(slots: Slots, id: string): (r: Option<Credential>)
    ensures r.Some? ==> ValidId(id) && r.value.id == id && r in slots
  {
    if !ValidId(id) || IndexOf(slots, id) == |slots| then None else slots[IndexOf(slots, id)]
  }

  predicate TokenTaken(slots: Slots, id: string, token: U64) {
    exists i | 0 <= i < |slots| :: slots[i].Some? && slots[i].value.id != id && slots[i].value.token == token
  }

  function Target(slots: Slots, id: string): (r: nat)
    ensures r <= |slots|
  {
    if IndexOf(slots, id) < |slots| then IndexOf(slots, id) else FirstFree(slots)
  }

  function Set(slots: Slots, c: Credential): (Slots, RegistryResult) {
    if !ValidCredential(c) then (slots, INVALID_ARGUMENT)
    else if TokenTaken(slots, c.id, c.token) then (slots, TOKEN_COLLISION)
    else if Target(slots, c.id) == |slots| then (slots, FULL)
    else (slots[Target(slots, c.id) := Some(c)], OK)
  }

  function SetEnabled(slots: Slots, id: string, enabled: bool): (Slots, RegistryResult) {
    if !ValidId(id) then (slots, INVALID_ARGUMENT)
    else
      var k := IndexOf(slots, id);
      if k == |slots| then (slots, NOT_FOUND) else (slots[k := Some(slots[k].value.(enabled := enabled))], OK)
  }

  function Erase(slots: Slots, id: string): (Slots, RegistryResult) {
    if !ValidId(id) then (slots, INVALID_ARGUMENT)
    else
      var k := IndexOf(slots, id);
      if k == |slots| then (slots, NOT_FOUND) else (slots[k := None], OK)
  }

  function Blank(n: nat): (s: Slots)
    ensures |s| == n && forall i | 0 <= i < n :: s[i] == None
  {
    seq(n, _ => None)
  }

  // The occupied records in slot order.
  function Records(slots: Slots): (r: seq<Credential>)
    ensures |r| <= |slots|
  {
    if slots == [] then []
    else if slots[0].None? then Records(slots[1..])
    else [slots[0].value] + Records(slots[1..])
  }

  // The same records moved to the front of a table of the same size.
  function Compact(slots: Slots): (r: Slots)
    ensures |r| == |slots|
  {
    Packed(Records(slots), |slots|)
  }

  function Packed(records: seq<Credential>, size: nat): (r: Slots)
    requires |records| <= size
    ensures |r| == size
    ensures forall i | 0 <= i < size :: r[i] == if i < |records| then Some(records[i]) else None
  {
    seq(size, i requires 0 <= i < size => if i < |records| then Some(records[i]) else None)
  }

  // Records that can share a table.
  predicate DistinctRecords(records: seq<Credential>) {
    && (forall i | 0 <= i < |records| :: ValidCredential(records[i]))
    && forall i, j | 0 <= i < j < |records| :: records[i].id != records[j].id && records[i].token != records[j].token
  }

  // ---------------------------------------------------------------- lemmas

  // A new record takes the next slot of a packed table.
  lemma SetAppends(records: seq<Credential>, c: Credential)
    requires DistinctRecords(records + [c]) && |records| < SLOTS
    ensures Set(Packed(records, SLOTS), c) == (Packed(records + [c], SLOTS), OK)
  {
    var slots, more := Packed(records, SLOTS), records + [c];
    assert more[|records|] == c;
    forall i | 0 <= i < |records| ensures slots[i] == Some(more[i]) && more[i].id != c.id && more[i].token != c.token {}
    assert IndexOf(slots, c.id) == SLOTS;
    assert slots[|records|].None?;
    assert FirstFree(slots) == |records|;
    assert slots[|records| := Some(c)] == Packed(more, SLOTS);
  }

  lemma SetKeepsValid(slots: Slots, c: Credential)
    requires ValidSlots(slots)
    ensures ValidSlots(Set(slots, c).0) && |Set(slots, c).0| == |slots|
  {
  }

  lemma SetEnabledKeepsValid(slots: Slots, id: string, enabled: bool)
    requires ValidSlots(slots)
    ensures ValidSlots(SetEnabled(slots, id, enabled).0) && |SetEnabled(slots, id, enabled).0| == |slots|
  {
  }

  lemma EraseKeepsValid(slots: Slots, id: string)
    requires ValidSlots(slots)
    ensures ValidSlots(Erase(slots, id).0) && |Erase(slots, id).0| == |slots|
  {
  }

  lemma IndexIsUnique(slots: Slots, id: string, i: nat)
    requires ValidSlots(slots) && i < |slots| && HasId(slots[i], id)
    ensures IndexOf(slots, id) == i
  {
    var k := IndexOf(slots, id);
    assert k <= i && HasId(slots[k], id);
  }

  // With distinct ids, finding is membership.
  lemma FindIsMembership(slots: Slots, c: Credential)
    requires ValidSlots(slots)
    ensures Find(slots, c.id) == Some(c) <==> Some(c) in slots
  {
    if Some(c) in slots {
      var k :| 0 <= k < |slots| && slots[k] == Some(c);
      assert HasId(slots[k], c.id);
      var r := IndexOf(slots, c.id);
      assert r <= k;
    }
  }

  lemma {:induction false} RecordsAreMembers(slots: Slots, c: Credential)
    ensures c in Records(slots) <==> Some(c) in slots
  {
    if slots != [] {
      RecordsAreMembers(slots[1..], c);
      assert slots == [slots[0]] + slots[1..];
    }
  }

  lemma {:induction false} RecordsDistinct(slots: Slots)
    requires ValidSlots(slots)
    ensures forall i, j | 0 <= i < j < |Records(slots)| ::
              Records(slots)[i].id != Records(slots)[j].id && Records(slots)[i].token != Records(slots)[j].token
    ensures forall i | 0 <= i < |Records(slots)| :: ValidCredential(Records(slots)[i])
  {
    if slots != [] {
      var rest := slots[1..];
      assert ValidSlots(rest);
      RecordsDistinct(rest);
      forall i | 0 <= i < |Records(rest)| && slots[0].Some?
        ensures Records(rest)[i].id != slots[0].value.id && Records(rest)[i].token != slots[0].value.token {
        RecordsAreMembers(rest, Records(rest)[i]);
        var k :| 0 <= k < |rest| && rest[k] == Some(Records(rest)[i]);
        assert slots[k + 1] == rest[k];
      }
    }
  }

  lemma CompactKeeps(slots: Slots, id: string)
    requires ValidSlots(slots)
    ensures ValidSlots(Compact(slots)) && Find(Compact(slots), id) == Find(slots, id)
  {
    var packed := Compact(slots);
    RecordsDistinct(slots);
    forall c: Credential ensures Some(c) in packed <==> Some(c) in slots {
      RecordsAreMembers(slots, c);
      if c in Records(slots) {
        var k :| 0 <= k < |Records(slots)| && Records(slots)[k] == c;
        assert packed[k] == Some(c);
      }
    }
    if Find(slots, id).Some? {
      FindIsMembership(packed, Find(slots, id).value);
    }
    if Find(packed, id).Some? {
      FindIsMembership(slots, Find(packed, id).value);
    }
  }
}
