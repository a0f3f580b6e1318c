/** The credential registry object: an array of slots changed in place. */
module CredentialRegistry {
  import opened Wrappers
  import opened Bytes
  import opened Credentials

  class Registry {
    const entries: array<Option<Credential>>

    ghost predicate Valid()
      reads entries
    {
      entries.Length == SLOTS && ValidSlots(entries[..])
    }

    constructor ()
      ensures Valid() && fresh(entries) && entries[..] == Blank(SLOTS)
    {
      entries := new Option<Credential>[SLOTS](_ => None);
      new;
      assert entries[..] == Blank(SLOTS);
    }

    method Set(c: Credential) returns (r: RegistryResult)
      requires Valid()
      modifies entries
      ensures Valid() && (entries[..], r) == Credentials.Set(old(entries[..]), c)
    {
      if !ValidCredential(c) { return INVALID_ARGUMENT; }
      ghost var was := entries[..];
      var target := entries.Length;
      for i := 0 to entries.Length
        invariant entries[..] == was
        invariant forall j | 0 <= j < i :: was[j].Some? && was[j].value.id != c.id ==> was[j].value.token != c.token
        invariant if IndexOf(was, c.id) < i then target == IndexOf(was, c.id)
                  else target == if FirstFree(was) < i then FirstFree(was) else entries.Length
      {
        if entries[i].Some? && entries[i].value.id == c.id {
          IndexIsUnique(was, c.id, i);
          target := i;
          continue;
        }
        if entries[i].Some? && entries[i].value.token == c.token {
          return TOKEN_COLLISION;
        }
        if entries[i].None? && target == entries.Length {
          assert FirstFree(was) <= i;
          target := i;
        }
      }
      SetKeepsValid(was, c);
      if target == entries.Length { return FULL; }
      entries[target] := Some(c);
      assert entries[..] == was[target := Some(c)];
      r := OK;
    }

    method Locate(id: string) returns (index: nat)
      requires Valid()
      ensures index == IndexOf(entries[..], id)
    {
      index := 0;
      while index < entries.Length
        invariant index <= IndexOf(entries[..], id)
      {
        if entries[index].Some? && entries[index].value.id == id { return; }
        index := index + 1;
      }
    }

    method SetEnabled(id: string, enabled: bool) returns (r: RegistryResult)
      requires Valid()
      modifies entries
      ensures Valid() && (entries[..], r) == Credentials.SetEnabled(old(entries[..]), id, enabled)
    {
      SetEnabledKeepsValid(entries[..], id, enabled);
      if !ValidId(id) { return INVALID_ARGUMENT; }
      var index := Locate(id);
      if index == entries.Length { return NOT_FOUND; }
      entries[index] := Some(entries[index].value.(enabled := enabled));
      r := OK;
    }

    method Erase(id: string) returns (r: RegistryResult)
      requires Valid()
      modifies entries
      ensures Valid() && (entries[..], r) == Credentials.Erase(old(entries[..]), id)
    {
      EraseKeepsValid(entries[..], id);
      if !ValidId(id) { return INVALID_ARGUMENT; }
      var index := Locate(id);
      if index == entries.Length { return NOT_FOUND; }
      entries[index] := None;
      r := OK;
    }

    method Clear()
      requires entries.Length == SLOTS
      modifies entries
      ensures Valid() && entries[..] == Blank(SLOTS)
    {
      for i := 0 to entries.Length
        invariant forall j | 0 <= j < i :: entries[j] == None
      {
        entries[i] := None;
      }
      assert entries[..] == Blank(SLOTS);
    }

    // Take over the contents of another registry.
    method Assign(other: Registry)
      requires Valid() && other.Valid() && entries != other.entries
      modifies entries
      ensures Valid() && entries[..] == other.entries[..]
    {
      for i := 0 to entries.Length
        invariant forall j | 0 <= j < i :: entries[j] == other.entries[j]
      {
        entries[i] := other.entries[i];
      }
      assert entries[..] == other.entries[..];
    }

    method Find(id: string) returns (c: Option<Credential>)
      requires Valid()
      ensures c == Credentials.Find(entries[..], id)
    {
      if !ValidId(id) { return None; }
      var index := Locate(id);
      c := if index < entries.Length then entries[index] else None;
    }

    method Size() returns (count: nat)
      requires Valid()
      ensures count == |Records(entries[..])|
    {
      count := 0;
      for i := 0 to entries.Length
        invariant |Records(entries[..])| == count + |Records(entries[i..])|
      {
        assert entries[i..][1..] == entries[i + 1..];
        if entries[i].Some? { count := count + 1; }
      }
    }
  }
}
