/** The two in-place patches of a stored floor plan document, on a given document. */
module FloorplanPatch {
  import opened Wrappers
  import opened JsonText
  import opened JsonScan
  import opened JsonLiteral

  // The one object that the whole document is, blanks aside.
  function ObjectRange(doc: string): (r: Option<(nat, nat)>)
    ensures r.Some? ==> r.value.0 < r.value.1 <= |doc| && doc[r.value.0] == '{'
  {
    var start := SkipWs(doc, 0);
    if start >= |doc| || doc[start] != '{' then None
    else
      ValueEndBound(doc[start..]);
      match ValueEnd(doc[start..])
      case None => None
      case Some(n) => if SkipWs(doc, start + n) != |doc| then None else Some((start, start + n))
  }

  function Splice(doc: string, range: (nat, nat), value: string): string
    requires range.0 <= range.1 <= |doc|
  {
    doc[..range.0] + value + doc[range.1..]
  }

  function PatchedMember(doc: string, key: string, value: string): Option<string> {
    match ObjectRange(doc)
    case None => None
    case Some((start, end)) =>
      match FindMember(doc, start + 1, end, key)
      case None => None
      case Some(range) => Some(Splice(doc, range, value))
  }

  predicate NamesRoom(json: string, start: nat, end: nat, roomId: string)
    requires start < end <= |json|
  {
    match FindMember(json, start + 1, end, "id")
    case None => false
    case Some((from, to)) => json[from] == '"' && json[from..to] == Literal(roomId)
  }

  // The range of the room's name, from the array element at `pos` on.
  function FindRoomName(json: string, pos: nat, end: nat, roomId: string): (r: Option<(nat, nat)>)
    requires end <= |json|
    ensures r.Some? ==> pos < r.value.0 < r.value.1 <= end
    decreases if pos < end then end - pos else 0
  {
    var p := SkipWs(json, pos);
    if p >= end || json[p] != '{' then None
    else
      ValueEndBound(json[p..end]);
      match ValueEnd(json[p..end])
      case None => None
      case Some(n) =>
        if NamesRoom(json, p, p + n, roomId) then FindMember(json, p + 1, p + n, "name")
        else FindRoomName(json, AfterComma(json, p + n, end), end, roomId)
  }

  // The range of the room's name in the object between `start` and `end`.
  function RoomNameRange(doc: string, start: nat, end: nat, roomId: string): (r: Option<(nat, nat)>)
    requires end <= |doc|
    ensures r.Some? ==> r.value.0 < r.value.1 <= end
  {
    match FindMember(doc, start + 1, end, "rooms")
    case None => None
    case Some((from, to)) => if doc[from] != '[' then None else FindRoomName(doc, from + 1, to, roomId)
  }

  function PatchedRoomName(doc: string, roomId: string, name: string): Option<string> {
    match ObjectRange(doc)
    case None => None
    case Some((start, end)) =>
      match RoomNameRange(doc, start, end, roomId)
      case None => None
      case Some(range) => Some(Splice(doc, range, Literal(name)))
  }

  method ScanObjectRange(json: string) returns (found: bool, start: nat, end: nat)
    ensures ObjectRange(json) == if found then Some((start, end)) else None
  {
    found, start, end := false, 0, 0;
    var objectStart := ScanWs(json, 0);
    if objectStart >= |json| || json[objectStart] != '{' { return; }
    assert json[objectStart..] == json[objectStart..|json|];
    var ok, objectEnd := ScanValueEnd(json, objectStart, |json|);
    if !ok { return; }
    var rest := ScanWs(json, objectEnd);
    if rest != |json| { return; }
    return true, objectStart, objectEnd;
  }

  method PatchMember(document: string, key: string, value: string) returns (out: Option<string>)
    ensures out == PatchedMember(document, key, value)
  {
    var ok, objectStart, objectEnd := ScanObjectRange(document);
    if !ok { return None; }
    var found, valueStart, valueEnd := ScanMemberRange(document, objectStart, objectEnd, key);
    if !found { return None; }
    out := Some(document[..valueStart] + value + document[valueEnd..]);
  }

  method PatchRoomName(document: string, roomId: string, name: string) returns (out: Option<string>)
    ensures out == PatchedRoomName(document, roomId, name)
  {
    hide FindMember, FindRoomName, ObjectRange, Literal;
    var ok, objectStart, objectEnd := ScanObjectRange(document);
    if !ok { return None; }
    var roomsStart, roomsEnd;
    ok, roomsStart, roomsEnd := ScanMemberRange(document, objectStart, objectEnd, "rooms");
    if !ok { return None; }
    if document[roomsStart] != '[' { return None; }
    var nameStart, nameEnd;
    ok, nameStart, nameEnd := ScanRoomName(document, roomsStart + 1, roomsEnd, roomId);
    if !ok { return None; }
    var literal := JsonStringLiteral(name);
    out := Some(document[..nameStart] + literal + document[nameEnd..]);
  }

  method ScanRoomName(document: string, roomsFrom: nat, roomsEnd: nat, roomId: string)
    returns (found: bool, nameStart: nat, nameEnd: nat)
    requires roomsEnd <= |document|
    ensures found ==> nameStart <= nameEnd <= |document|
    ensures FindRoomName(document, roomsFrom, roomsEnd, roomId) == if found then Some((nameStart, nameEnd)) else None
  {
    hide FindMember, ValueEnd, NamesRoom;
    found, nameStart, nameEnd := false, 0, 0;
    var pos := roomsFrom;
    while pos < roomsEnd
      invariant FindRoomName(document, roomsFrom, roomsEnd, roomId) == FindRoomName(document, pos, roomsEnd, roomId)
      decreases roomsEnd - pos
    {
      ghost var entry := pos;
      pos := ScanWs(document, pos);
      if pos >= roomsEnd || document[pos] == ']' { return; }
      if document[pos] != '{' { return; }
      var ok, roomEnd := ScanValueEnd(document, pos, roomsEnd);
      if !ok { return; }
      var named := ScanNamesRoom(document, pos, roomEnd, roomId);
      if named {
        found, nameStart, nameEnd := ScanMemberRange(document, pos, roomEnd, "name");
        return;
      }
      FindRoomStep(document, entry, roomsEnd, roomId);
      pos := ScanWs(document, roomEnd);
      if pos < roomsEnd && document[pos] == ',' {
        pos := pos + 1;
      }
    }
  }

  method ScanNamesRoom(document: string, start: nat, end: nat, roomId: string) returns (named: bool)
    requires start < end <= |document| && document[start] == '{'
    ensures named == NamesRoom(document, start, end, roomId)
  {
    var found, from, to := ScanMemberRange(document, start, end, "id");
    if !found || document[from] != '"' { return false; }
    var expected := JsonStringLiteral(roomId);
    named := document[from..to] == expected;
  }

  lemma FindRoomStep(json: string, pos: nat, end: nat, roomId: string)
    requires end <= |json|
    requires var p := SkipWs(json, pos);
             p < end && json[p] == '{' && ValueEnd(json[p..end]).Some? && ValueEnd(json[p..end]).value <= end - p &&
             ValueEnd(json[p..end]).value > 0 &&
             !NamesRoom(json, p, p + ValueEnd(json[p..end]).value, roomId)
    ensures var p := SkipWs(json, pos);
            FindRoomName(json, pos, end, roomId) ==
            FindRoomName(json, AfterComma(json, p + ValueEnd(json[p..end]).value, end), end, roomId)
  {
    hide NamesRoom, ValueEnd, FindMember, SkipWs, AfterComma;
  }
}
