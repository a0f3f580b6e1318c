/** Which room a rename finds: the code compares the text of names and ids, this module relates that to
    the strings they denote. */
module RoomMatching {
  import opened Wrappers
  import opened JsonText
  import opened JsonMembers
  import opened JsonLiteral
  import opened FloorplanPatch
  import opened FloorplanPatchProof
  import opened FloorplanRoomProof
  import opened MemberNames

  predicate DenotesText(v: Json, s: string) {
    v.Str? && Unescape(v.body) == Some(s)
  }

  // The object's first member named id denotes the string, however name and value are spelled.
  predicate NamedRoom(fields: Fields, roomId: string) {
    HasNamed(fields, "id") && DenotesText(Named(fields, "id"), roomId)
  }

  // The rooms from the first one with the id on, as the code finds it; nothing once an element is not
  // an object.
  function Seek(items: Items, roomId: string): (r: Items)
    ensures r.Item? ==> r.value.Obj? && IsRoom(r.value.fields, roomId)
  {
    if items.NoItems? || !items.value.Obj? then NoItems
    else if IsRoom(items.value.fields, roomId) then items
    else Seek(items.rest, roomId)
  }

  // The same by what names and ids denote.
  function SeekNamed(items: Items, roomId: string): (r: Items)
    ensures r.Item? ==> r.value.Obj? && NamedRoom(r.value.fields, roomId)
  {
    if items.NoItems? || !items.value.Obj? then NoItems
    else if NamedRoom(items.value.fields, roomId) then items
    else SeekNamed(items.rest, roomId)
  }

  // What a rename is for: the first room with the id, by what names and ids denote.
  function RenameNamed(items: Items, roomId: string, w: Json): Option<Items> {
    match items
    case NoItems => None
    case Item(lead, value, trail, rest) =>
      if !value.Obj? then None
      else if NamedRoom(value.fields, roomId) then
        if HasNamed(value.fields, "name")
        then Some(items.(value := Obj(value.pad, SetNamed(value.fields, "name", w)))) else None
      else
        match RenameNamed(rest, roomId, w)
        case None => None
        case Some(renamed) => Some(items.(rest := renamed))
  }

  function RenameNamedInPlan(fields: Fields, roomId: string, w: Json): Option<Fields> {
    if !HasNamed(fields, "rooms") then None
    else
      match Named(fields, "rooms")
      case Arr(pad, items) =>
        (match RenameNamed(items, roomId, w)
         case None => None
         case Some(renamed) => Some(SetNamed(fields, "rooms", Arr(pad, renamed))))
      case _ => None
  }

  // An object matches exactly when its first "id" denotes the string and is spelled as this program
  // spells it.
  lemma IsRoomExactly(fields: Fields, roomId: string)
    ensures IsRoom(fields, roomId) <==>
            HasMember(fields, "id") && DenotesText(Member(fields, "id"), roomId) && Member(fields, "id").body == Escape(roomId)
  {
    LiteralRoundTrip(roomId);
  }

  // The object's spelling does not mislead: the first member named id is written without escapes in its
  // name, and as this program writes it if it denotes the string; or its name is escaped, and a later
  // plain "id" happens to give the same answer.
  predicate SpelledRoom(fields: Fields, roomId: string) {
    HasNamed(fields, "id") ==>
      var f := SeekName(fields, "id");
      if f.key == "id" then DenotesText(f.value, roomId) ==> f.value.body == Escape(roomId)
      else DenotesText(f.value, roomId) <==> IsRoom(f.rest, roomId)
  }

  lemma PlainNames()
    ensures Plain("id") && Plain("name") && Plain("rooms")
    ensures NamedBy("id", "id")
  {
    LettersArePlain("id");
    LettersArePlain("name");
    LettersArePlain("rooms");
    hide Plain;
    PlainDenotes("id");
  }

  lemma {:induction false} SeekNameIsRoom(fields: Fields, roomId: string)
    requires NamedBy("id", "id")
    ensures IsRoom(fields, roomId) <==> HasNamed(fields, "id") && IsRoom(SeekName(fields, "id"), roomId)
  {
    hide NamedBy;
    if fields.Field? && !NamedBy(fields.key, "id") {
      SeekNameIsRoom(fields.rest, roomId);
    }
  }

  lemma RoomHere(f: Fields, roomId: string)
    requires f.Field?
    ensures f.key == "id" ==> (IsRoom(f, roomId) <==> DenotesText(f.value, roomId) && f.value.body == Escape(roomId))
    ensures f.key != "id" ==> (IsRoom(f, roomId) <==> IsRoom(f.rest, roomId))
  {
    LiteralRoundTrip(roomId);
    hide Escape, Unescape;
  }

  lemma RoomExactly(fields: Fields, roomId: string)
    ensures (IsRoom(fields, roomId) <==> NamedRoom(fields, roomId)) <==> SpelledRoom(fields, roomId)
  {
    hide NamedBy, Escape, DenotesText, Plain, IsRoom, SeekName;
    PlainNames();
    SeekNameIsRoom(fields, roomId);
    if HasNamed(fields, "id") {
      RoomHere(SeekName(fields, "id"), roomId);
    }
  }

  function Count(items: Items): nat {
    if items.NoItems? then 0 else 1 + Count(items.rest)
  }

  lemma {:induction false} SeekShrinks(items: Items, roomId: string)
    ensures Count(Seek(items, roomId)) <= Count(items) && Count(SeekNamed(items, roomId)) <= Count(items)
  {
    hide IsRoom, NamedRoom;
    if items.Item? && items.value.Obj? {
      SeekShrinks(items.rest, roomId);
    }
  }

  // No object's spelling misleads, up to the first room with the id.
  predicate Spelled(items: Items, roomId: string) {
    items.Item? && items.value.Obj? ==>
      && SpelledRoom(items.value.fields, roomId)
      && (!NamedRoom(items.value.fields, roomId) ==> Spelled(items.rest, roomId))
  }

  // Main result: the code finds the first room with the id exactly when no spelling misleads up to it.
  lemma {:induction false} SeekExactly(items: Items, roomId: string)
    ensures Seek(items, roomId) == SeekNamed(items, roomId) <==> Spelled(items, roomId)
  {
    if items.Item? && items.value.Obj? {
      RoomExactly(items.value.fields, roomId);
      SeekShrinks(items.rest, roomId);
      hide IsRoom, NamedRoom, SpelledRoom;
      if !NamedRoom(items.value.fields, roomId) && !IsRoom(items.value.fields, roomId) {
        SeekExactly(items.rest, roomId);
      }
    }
  }

  predicate FoundSpelled(items: Items, roomId: string) {
    var found := SeekNamed(items, roomId);
    found.Item? ==> NameSpelled(found.value.fields, "name")
  }

  lemma NameHere(fields: Fields, w: Json)
    requires NameSpelled(fields, "name")
    ensures HasMember(fields, "name") == HasNamed(fields, "name")
    ensures HasMember(fields, "name") ==> SetMember(fields, "name", w) == SetNamed(fields, "name", w)
  {
    hide Plain, NameSpelled;
    PlainNames();
    SpelledLookup(fields, "name");
    if HasMember(fields, "name") {
      SpelledReplacement(fields, "name", w);
    }
  }

  lemma {:induction false} SpelledRename(items: Items, roomId: string, w: Json)
    requires Spelled(items, roomId) && FoundSpelled(items, roomId)
    ensures RenameRoom(items, roomId, w) == RenameNamed(items, roomId, w)
  {
    if items.Item? && items.value.Obj? {
      hide IsRoom, NamedRoom, SpelledRoom, SetMember, SetNamed, HasMember, HasNamed, NameSpelled;
      RoomExactly(items.value.fields, roomId);
      if NamedRoom(items.value.fields, roomId) {
        NameHere(items.value.fields, w);
      } else {
        SpelledRename(items.rest, roomId, w);
      }
    }
  }

  // The three names the rename looks up, and the ids up to the room, do not mislead.
  predicate PlanSpelled(fields: Fields, roomId: string) {
    && NameSpelled(fields, "rooms")
    && (HasNamed(fields, "rooms") && Named(fields, "rooms").Arr? ==>
          var items := Named(fields, "rooms").items; Spelled(items, roomId) && FoundSpelled(items, roomId))
  }

  lemma SpelledPlan(fields: Fields, roomId: string, w: Json)
    requires PlanSpelled(fields, roomId)
    ensures RenameInPlan(fields, roomId, w) == RenameNamedInPlan(fields, roomId, w)
  {
    PlainNames();
    hide NameSpelled, SetMember, SetNamed, Member, HasMember, Named, HasNamed, Plain, NamedBy, Spelled, FoundSpelled,
         RenameRoom, RenameNamed;
    SpelledLookup(fields, "rooms");
    if HasMember(fields, "rooms") && Member(fields, "rooms").Arr? {
      var rooms := Member(fields, "rooms");
      SpelledRename(rooms.items, roomId, w);
      if RenameRoom(rooms.items, roomId, w).Some? {
        SpelledReplacement(fields, "rooms", Arr(rooms.pad, RenameRoom(rooms.items, roomId, w).value));
      }
    }
  }

  // Main result: in a document that does not mislead, the patch renames the room that has the id.
  lemma PatchRenamesNamed(before: string, pad: string, fields: Fields, after: string, roomId: string, name: string)
    requires Blank(before) && Blank(after) && Wf(Obj(pad, fields)) && PlanSpelled(fields, roomId)
    ensures PatchedRoomName(before + Text(Obj(pad, fields)) + after, roomId, name) ==
            match RenameNamedInPlan(fields, roomId, Str(Escape(name)))
            case None => None
            case Some(renamed) => Some(before + Text(Obj(pad, renamed)) + after)
  {
    hide PatchedRoomName, Text, Wf, PlanSpelled, Escape, RenameInPlan, RenameNamedInPlan;
    PatchRoomNameCommutes(before, pad, fields, after, roomId, name);
    SpelledPlan(fields, roomId, Str(Escape(name)));
  }

  predicate Written(v: Json, id: string) {
    v == Str(Escape(id))
  }

  // Every room's names, and its id if it is a string, were written by this program.
  ghost predicate IdsWritten(items: Items) {
    items.Item? ==>
      && (items.value.Obj? ==>
            && NamesWritten(items.value.fields)
            && (HasNamed(items.value.fields, "id") && Named(items.value.fields, "id").Str? ==>
                  exists id: string :: Written(Named(items.value.fields, "id"), id)))
      && IdsWritten(items.rest)
  }

  lemma WrittenRoom(fields: Fields, roomId: string)
    requires NamesWritten(fields)
    requires HasNamed(fields, "id") && Named(fields, "id").Str? ==> exists id: string :: Written(Named(fields, "id"), id)
    ensures SpelledRoom(fields, roomId)
  {
    PlainNames();
    WrittenNames(fields, "id");
    hide Escape, Unescape, IsRoom, Plain;
    if NamedRoom(fields, roomId) {
      var id: string :| Written(Named(fields, "id"), id);
      LiteralRoundTrip(id);
    }
  }

  lemma {:induction false} WrittenIsSpelled(items: Items, roomId: string)
    requires IdsWritten(items)
    ensures Spelled(items, roomId) && FoundSpelled(items, roomId)
  {
    if items.Item? && items.value.Obj? {
      PlainNames();
      hide SpelledRoom, NamedRoom, Named, HasNamed, NameSpelled, NamesWritten, Plain, NamedBy;
      WrittenRoom(items.value.fields, roomId);
      if NamedRoom(items.value.fields, roomId) {
        WrittenNames(items.value.fields, "name");
      } else {
        WrittenIsSpelled(items.rest, roomId);
      }
    }
  }

  // A document whose names and ids this program wrote does not mislead.
  lemma WrittenPlan(fields: Fields, roomId: string)
    requires NamesWritten(fields)
    requires HasNamed(fields, "rooms") && Named(fields, "rooms").Arr? ==> IdsWritten(Named(fields, "rooms").items)
    ensures PlanSpelled(fields, roomId)
  {
    PlainNames();
    hide NamesWritten, Named, HasNamed, NameSpelled, Plain, NamedBy, IdsWritten, Spelled, FoundSpelled;
    WrittenNames(fields, "rooms");
    if HasNamed(fields, "rooms") && Named(fields, "rooms").Arr? {
      WrittenIsSpelled(Named(fields, "rooms").items, roomId);
    }
  }

  // ---------------------------------------------------------------- rooms that are missed

  // A document with one room.
  function Document(key: string, body: string): string {
    "{\"rooms\":[{" + RoomSource(key, body) + "}]}"
  }

  function RoomSource(key: string, body: string): string {
    Quoted(key) + ":" + Quoted(body) + ",\"name\":\"x\""
  }

  function Room(key: string, body: string): Fields {
    Field("", key, "", "", Str(body), "", Field("", "name", "", "", Str("x"), "", NoFields))
  }

  function Rooms(key: string, body: string): Items {
    Item("", Obj("", Room(key, body)), "", NoItems)
  }

  function Plan(key: string, body: string): Fields {
    Field("", "rooms", "", "", Arr("", Rooms(key, body)), "", NoFields)
  }

  lemma LabelOf(key: string, value: Json, rest: Fields)
    ensures FieldsText(Field("", key, "", "", value, "", rest)) == Quoted(key) + ":" + Text(value) + FieldsTail(rest)
  {
    var head := Label(Field("", key, "", "", value, "", rest));
    assert head == Quoted(key) + ":";
    assert head + Text(value) + "" == head + Text(value);
  }

  lemma NameText()
    ensures FieldsTail(Field("", "name", "", "", Str("x"), "", NoFields)) == ",\"name\":\"x\""
  {
    LabelOf("name", Str("x"), NoFields);
    assert Quoted("name") + ":" == "\"name\":" && Text(Str("x")) == "\"x\"";
    assert FieldsTail(NoFields) == "";
    hide FieldsText, Text, Quoted;
  }

  lemma RoomTextOf(key: string, body: string)
    ensures FieldsText(Room(key, body)) == RoomSource(key, body)
  {
    NameText();
    LabelOf(key, Str(body), Room(key, body).rest);
    assert Text(Str(body)) == Quoted(body);
    hide FieldsText, Text, Quoted, FieldsTail;
  }

  lemma RoomsTextOf(key: string, body: string)
    ensures Text(Arr("", Rooms(key, body))) == "[{" + RoomSource(key, body) + "}]"
  {
    RoomTextOf(key, body);
    hide FieldsText, Room, RoomSource;
    var room, text := Obj("", Room(key, body)), RoomSource(key, body);
    assert Text(room) == "{" + ("" + text) + "}" == "{" + text + "}";
    assert ItemsText(Rooms(key, body)) == "" + Text(room) + "" + ItemsTail(NoItems) == Text(room);
    assert Text(Arr("", Rooms(key, body))) == "[" + ("" + Text(room)) + "]";
    hide Text, ItemsText;
    assert "[" + ("" + ("{" + text + "}")) + "]" == "[{" + text + "}]";
  }

  lemma Regroup(a: string, b: string, c: string, d: string, e: string, f: string)
    ensures a + ("" + (b + (c + d + e) + "")) + f == (a + b + c) + d + (e + f)
  {
  }

  lemma DocumentText(key: string, body: string)
    ensures Text(Obj("", Plan(key, body))) == Document(key, body)
  {
    RoomsTextOf(key, body);
    hide Rooms, RoomSource;
    LabelOf("rooms", Arr("", Rooms(key, body)), NoFields);
    assert Quoted("rooms") + ":" == "\"rooms\":" && FieldsTail(NoFields) == "";
    assert Text(Obj("", Plan(key, body))) == "{" + ("" + FieldsText(Plan(key, body))) + "}";
    var text := RoomSource(key, body);
    assert Document(key, body) == "{\"rooms\":[{" + text + "}]}";
    hide *;
    Regroup("{", "\"rooms\":", "[{", text, "}]", "}");
    assert "{" + "\"rooms\":" + "[{" == "{\"rooms\":[{" && "}]" + "}" == "}]}";
  }

  lemma PlainBodies()
    ensures StringBody("id") && StringBody("name") && StringBody("rooms") && StringBody("x") && StringBody("a")
    ensures Blank("")
  {
    PlainBody("id");
    PlainBody("name");
    PlainBody("rooms");
    PlainBody("x");
    PlainBody("a");
  }

  lemma DocumentWf(key: string, body: string)
    requires StringBody(key) && StringBody(body)
    ensures Wf(Obj("", Plan(key, body)))
  {
    hide StringBody, Blank;
    PlainBodies();
    var name := Field("", "name", "", "", Str("x"), "", NoFields);
    FieldWf("name", Str("x"), NoFields);
    FieldWf(key, Str(body), name);
    var room := Obj("", Room(key, body));
    assert Wf(room) && WfItems(Rooms(key, body));
    FieldWf("rooms", Arr("", Rooms(key, body)), NoFields);
    hide Room, Rooms;
  }

  lemma FieldWf(key: string, value: Json, rest: Fields)
    requires StringBody(key) && Wf(value) && WfFields(rest)
    ensures WfFields(Field("", key, "", "", value, "", rest))
  {
    hide StringBody;
    assert Blank("");
  }

  // The escape of one character.
  lemma OneEscape(x: char, a: nat, b: nat, rest: string)
    requires a < 16 && b < 16 && a * 16 + b == x as int
    ensures Unescape("\\u00" + [HexDigit(a), HexDigit(b)] + rest) == Prepend(x, Unescape(rest))
    ensures StringBody(rest) ==> StringBody("\\u00" + [HexDigit(a), HexDigit(b)] + rest)
  {
    var s := "\\u00" + [HexDigit(a), HexDigit(b)] + rest;
    var d := s[2..];
    assert d[4..] == rest;
    assert HexValue(d[2]) == Some(a) && HexValue(d[3]) == Some(b);
    if StringBody(rest) {
      assert d[1..][1..][1..][1..] == rest;
      assert StringBody(d[1..][1..][1..]) && StringBody(d[1..][1..]);
    }
  }

  const ESCAPED_A := "\\u0061"
  const ESCAPED_ID := "\\u0069d"

  lemma Escapes()
    ensures Unescape(ESCAPED_A) == Some("a") && StringBody(ESCAPED_A)
    ensures Unescape(ESCAPED_ID) == Some("id") && StringBody(ESCAPED_ID)
    ensures ESCAPED_A != "a" && ESCAPED_ID != "id" && Escape("a") == "a" && Unescape("a") == Some("a")
  {
    EscapeOfA();
    EscapeOfId();
    LettersArePlain("a");
    PlainDenotes("a");
    assert ESCAPED_A[0] != "a"[0] && ESCAPED_ID[0] != "id"[0];
    hide Unescape, StringBody;
  }

  lemma EscapeOfA()
    ensures Unescape(ESCAPED_A) == Some("a") && StringBody(ESCAPED_A)
  {
    OneEscape('a', 6, 1, "");
    assert "\\u00" + [HexDigit(6), HexDigit(1)] + "" == ESCAPED_A;
    assert Unescape("") == Some("") && StringBody("") && ['a'] + "" == "a";
    hide Unescape, StringBody;
  }

  lemma EscapeOfId()
    ensures Unescape(ESCAPED_ID) == Some("id") && StringBody(ESCAPED_ID)
  {
    OneEscape('i', 6, 9, "d");
    assert "\\u00" + [HexDigit(6), HexDigit(9)] + "d" == ESCAPED_ID;
    LettersArePlain("d");
    PlainDenotes("d");
    PlainBody("d");
    assert ['i'] + "d" == "id";
    hide Unescape, StringBody;
  }

  // The only room of the document does not match, so nothing is patched.
  lemma Missed(key: string, body: string, name: string)
    requires StringBody(key) && StringBody(body) && !IsRoom(Room(key, body), "a")
    ensures PatchedRoomName(Document(key, body), "a", name) == None
  {
    DocumentText(key, body);
    DocumentWf(key, body);
    hide PatchedRoomName, Text, Wf, Escape, IsRoom, Document;
    var w := Str(Escape(name));
    assert RenameRoom(Rooms(key, body), "a", w) == None;
    assert RenameInPlan(Plan(key, body), "a", w) == None;
    PatchRoomNameCommutes("", "", Plan(key, body), "", "a", name);
    assert "" + Document(key, body) + "" == Document(key, body);
  }

  lemma RoomByName(key: string, body: string)
    requires NamedBy(key, "id") && Unescape(body) == Some("a")
    ensures NamedRoom(Room(key, body), "a") && HasNamed(Room(key, body), "name")
  {
    PlainNames();
    PlainDenotes("name");
    DifferentNames(key);
    hide NamedBy, Unescape, Plain;
    var rest := Room(key, body).rest;
    assert SeekName(Room(key, body), "id") == Room(key, body);
    assert SeekName(rest, "name") == rest;
  }

  lemma FoundByName(key: string, body: string, w: Json)
    requires NamedBy(key, "id") && Unescape(body) == Some("a")
    ensures NamedRoom(Room(key, body), "a") && RenameNamedInPlan(Plan(key, body), "a", w).Some?
  {
    hide NamedBy, Unescape, Plain, Room, NamedRoom, SetNamed;
    RoomByName(key, body);
    PlainNames();
    PlainDenotes("rooms");
    assert SeekName(Plan(key, body), "rooms") == Plan(key, body);
    assert RenameNamed(Rooms(key, body), "a", w).Some?;
  }

  lemma DifferentNames(key: string)
    requires NamedBy(key, "id")
    ensures !NamedBy(key, "name")
  {
    assert "id" != "name";
  }

  // The value of the only room's id is an escape of "a": a rename of room "a" does nothing.
  lemma EscapedIdIsMissed(name: string)
    ensures RenameNamedInPlan(Plan("id", ESCAPED_A), "a", Str(Escape(name))).Some?
    ensures PatchedRoomName(Document("id", ESCAPED_A), "a", name) == None
  {
    Escapes();
    PlainNames();
    PlainBodies();
    FoundByName("id", ESCAPED_A, Str(Escape(name)));
    hide PatchedRoomName, RenameNamedInPlan, Unescape, StringBody, Escape, NamedBy;
    Missed("id", ESCAPED_A, name);
  }

  // Its id is spelled as this program spells it, but the name of that member is not: nothing is patched.
  lemma EscapedNameIsMissed(name: string)
    ensures NamedRoom(Room(ESCAPED_ID, "a"), "a") && Named(Room(ESCAPED_ID, "a"), "id").body == Escape("a")
    ensures RenameNamedInPlan(Plan(ESCAPED_ID, "a"), "a", Str(Escape(name))).Some?
    ensures PatchedRoomName(Document(ESCAPED_ID, "a"), "a", name) == None
  {
    Escapes();
    PlainBodies();
    FoundByName(ESCAPED_ID, "a", Str(Escape(name)));
    assert SeekName(Room(ESCAPED_ID, "a"), "id") == Room(ESCAPED_ID, "a");
    hide PatchedRoomName, RenameNamedInPlan, Unescape, StringBody, Escape, NamedBy;
    Missed(ESCAPED_ID, "a", name);
  }
}
