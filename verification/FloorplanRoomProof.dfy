/** Renaming a room in the text of a document is the same as renaming it in the document. */
module FloorplanRoomProof {
  import opened Wrappers
  import opened JsonText
  import opened JsonScan
  import opened JsonRanges
  import opened JsonMembers
  import opened JsonLiteral
  import opened FloorplanPatch
  import opened FloorplanPatchProof

  // An object is the room when its first "id" is the string, spelled as this program spells it.
  predicate IsRoom(fields: Fields, roomId: string) {
    HasMember(fields, "id") && Member(fields, "id") == Str(Escape(roomId))
  }

  // Rename the first matching room.  None when an element before it is not an object, when no
  // room matches, and when the matching room has no name.
  function RenameRoom(items: Items, roomId: string, w: Json): Option<Items> {
    match items
    case NoItems => None
    case Item(lead, value, trail, rest) =>
      if !value.Obj? then None
      else if IsRoom(value.fields, roomId) then
        if HasMember(value.fields, "name")
        then Some(items.(value := Obj(value.pad, SetMember(value.fields, "name", w)))) else None
      else
        match RenameRoom(rest, roomId, w)
        case None => None
        case Some(renamed) => Some(items.(rest := renamed))
  }

  function RenameInPlan(fields: Fields, roomId: string, w: Json): Option<Fields> {
    if !HasMember(fields, "rooms") then None
    else
      match Member(fields, "rooms")
      case Arr(pad, items) =>
        (match RenameRoom(items, roomId, w)
         case None => None
         case Some(renamed) => Some(SetMember(fields, "rooms", Arr(pad, renamed))))
      case _ => None
  }

  // Offset and length of the name in the text of the array's elements.
  function RoomSpan(items: Items, roomId: string): Option<(nat, nat)> {
    match items
    case NoItems => None
    case Item(lead, value, trail, rest) =>
      if !value.Obj? then None
      else if IsRoom(value.fields, roomId) then ShiftSpan(|lead| + 1 + |value.pad|, MemberSpan(value.fields, "name"))
      else ShiftSpan(|lead| + |Text(value)| + |trail| + 1, RoomSpan(rest, roomId))
  }

  function ShiftSpan(base: nat, span: Option<(nat, nat)>): Option<(nat, nat)> {
    match span
    case None => None
    case Some((offset, length)) => Some((base + offset, length))
  }

  predicate ItemsPlaced(json: string, pos: nat, a: nat, items: Items, end: nat) {
    && pos <= a && end == a + |ItemsText(items)| + 1 <= |json|
    && Blank(json[pos..a]) && Holds(json, a, ItemsText(items)) && json[end - 1] == ']'
  }

  function NextItem(a: nat, items: Items): nat
    requires items.Item?
  {
    a + |items.lead| + |Text(items.value)| + |items.trail| + if items.rest.NoItems? then 0 else 1
  }

  lemma ItemParts(json: string, a: nat, items: Items)
    requires items.Item? && Holds(json, a, ItemsText(items))
    ensures var p := a + |items.lead|;
            var c := p + |Text(items.value)|;
            && Holds(json, a, items.lead) && Holds(json, p, Text(items.value))
            && Holds(json, c, items.trail) && Holds(json, c + |items.trail|, ItemsTail(items.rest))
            && |ItemsText(items)| == c + |items.trail| + |ItemsTail(items.rest)| - a
  {
    var l, v, t := items.lead, Text(items.value), items.trail;
    HoldsSplit(json, a, l + v + t, ItemsTail(items.rest));
    HoldsSplit(json, a, l + v, t);
    HoldsSplit(json, a, l, v);
  }

  lemma RestItemPlaced(json: string, pos: nat, a: nat, items: Items, end: nat)
    requires items.Item? && WfItems(items) && ItemsPlaced(json, pos, a, items, end)
    ensures var next := NextItem(a, items);
            ItemsPlaced(json, next, next, items.rest, end)
    ensures var c := a + |items.lead| + |Text(items.value)| + |items.trail|;
            c < end && (if items.rest.Item? then json[c] == ',' else c + 1 == end && json[c] == ']')
  {
    ItemParts(json, a, items);
    hide Wf, Blank;
    var c := a + |items.lead| + |Text(items.value)| + |items.trail|;
    if items.rest.Item? {
      HoldsSplit(json, c, ",", ItemsText(items.rest));
      HoldsStart(json, c, ",");
    }
    NoBlank(json, NextItem(a, items));
  }

  lemma NextItemPlaced(json: string, pos: nat, a: nat, items: Items, end: nat)
    requires items.Item? && WfItems(items) && ItemsPlaced(json, pos, a, items, end)
    ensures var next := NextItem(a, items);
            var p := a + |items.lead|;
            && ItemsPlaced(json, next, next, items.rest, end)
            && AfterComma(json, p + Span(items.value, items.trail), end) == next
            && p + |Text(items.value)| + |items.trail| < end
            && Delimiter(json[p + |Text(items.value)| + |items.trail|])
  {
    RestItemPlaced(json, pos, a, items, end);
    ItemParts(json, a, items);
    hide ItemsPlaced, Text, ItemsText, Holds, Wf, Blank, SkipWs, Span;
    TrailSkip(json, a + |items.lead|, items.value, items.trail);
  }

  lemma {:induction false} MemberSpanText(fields: Fields, key: string)
    requires HasMember(fields, key)
    ensures MemberSpan(fields, key).Some?
    ensures var (offset, length) := MemberSpan(fields, key).value;
            var v := Member(fields, key);
            && Holds(FieldsText(fields), offset, Text(v)) && |Text(v)| <= length
            && (!v.Scalar? ==> length == |Text(v)|)
  {
    var text := FieldsText(fields);
    assert Holds(text, 0, text);
    FieldParts(text, 0, fields);
    if fields.key != key {
      MemberSpanText(fields.rest, key);
      var base := |Label(fields)| + |Text(fields.value)| + |fields.trail| + 1;
      HoldsSplit(text, base - 1, ",", FieldsText(fields.rest));
      HoldsInside(text, base, FieldsText(fields.rest), MemberSpan(fields.rest, key).value.0, Text(Member(fields.rest, key)));
    }
  }

  lemma HoldsInside(json: string, a: nat, text: string, offset: nat, part: string)
    requires Holds(json, a, text) && Holds(text, offset, part)
    ensures Holds(json, a + offset, part)
  {
    var pre, post := text[..offset], text[offset + |part|..];
    assert text == pre + (part + post);
    HoldsSplit(json, a, pre, part + post);
    HoldsSplit(json, a + offset, part, post);
  }

  // The member of an object standing anywhere in the document, with its text there.
  lemma ObjectMember(json: string, start: nat, pad: string, fields: Fields, key: string)
    requires Wf(Obj(pad, fields)) && Holds(json, start, Text(Obj(pad, fields)))
    ensures var end := start + |Text(Obj(pad, fields))|;
            var a := start + 1 + |pad|;
            && FindMember(json, start + 1, end, key) == At(a, MemberSpan(fields, key))
            && (HasMember(fields, key) ==>
                MemberSpan(fields, key).Some? &&
                Holds(json, a + MemberSpan(fields, key).value.0, Text(Member(fields, key))))
  {
    hide FindMember, MemberSpan, Member, HasMember, WfFields;
    var a := start + 1 + |pad|;
    ObjectPlaced(json, start, pad, fields);
    FindMemberOf(json, start + 1, a, fields, start + |Text(Obj(pad, fields))|, key);
    if HasMember(fields, key) {
      MemberSpanText(fields, key);
      HoldsInside(json, a, FieldsText(fields), MemberSpan(fields, key).value.0, Text(Member(fields, key)));
    }
  }

  lemma QuotedEq(a: string, b: string)
    ensures Quoted(a) == Quoted(b) <==> a == b
  {
    assert Quoted(a)[1..|a| + 1] == a && Quoted(b)[1..|b| + 1] == b;
  }

  lemma NamesRoomOf(json: string, start: nat, pad: string, fields: Fields, roomId: string)
    requires Wf(Obj(pad, fields)) && Holds(json, start, Text(Obj(pad, fields)))
    ensures NamesRoom(json, start, start + |Text(Obj(pad, fields))|, roomId) == IsRoom(fields, roomId)
  {
    hide FindMember, MemberSpan, Member, HasMember, WfFields, FieldsText;
    ObjectMember(json, start, pad, fields, "id");
    MemberSpanBound(fields, "id");
    if HasMember(fields, "id") {
      var v := Member(fields, "id");
      var from := start + 1 + |pad| + MemberSpan(fields, "id").value.0;
      MemberSpanText(fields, "id");
      MemberWf(fields, "id");
      RoomText(json, from, v);
      if v.Str? {
        QuotedEq(v.body, Escape(roomId));
      }
    }
  }

  lemma {:induction false} MemberWf(fields: Fields, key: string)
    requires HasMember(fields, key) && WfFields(fields)
    ensures Wf(Member(fields, key))
  {
    if fields.key != key {
      MemberWf(fields.rest, key);
    }
  }

  // The first character tells strings and arrays from the rest.
  lemma RoomText(json: string, from: nat, v: Json)
    requires Wf(v) && Holds(json, from, Text(v))
    ensures from < |json|
    ensures json[from] == '"' <==> v.Str?
    ensures json[from] == '[' <==> v.Arr?
    ensures json[from] == '{' <==> v.Obj?
  {
    TextStart(v);
    HoldsStart(json, from, Text(v));
    if v.Scalar? {
      assert ScalarChar(v.text[0]);
    }
  }

  lemma FirstItem(json: string, pos: nat, a: nat, items: Items, end: nat)
    requires items.Item? && WfItems(items) && ItemsPlaced(json, pos, a, items, end)
    ensures var p := a + |items.lead|;
            && SkipWs(json, pos) == p < end && Holds(json, p, Text(items.value))
            && (json[p] == '{' <==> items.value.Obj?)
            && (items.value.Obj? ==> ValueEnd(json[p..end]) == Some(|Text(items.value)|))
  {
    var p := a + |items.lead|;
    ItemParts(json, a, items);
    NextItemPlaced(json, pos, a, items, end);
    BlankJoin(json, pos, a, p);
    RoomText(json, p, items.value);
    TextStart(items.value);
    HoldsStart(json, p, Text(items.value));
    SkipWsTo(json, pos, p);
    ValueEndAt(json, p, items.value, items.trail, end);
  }

  lemma RoomSpanCases(a: nat, items: Items, roomId: string)
    requires items.Item?
    ensures !items.value.Obj? ==> RoomSpan(items, roomId) == None
    ensures items.value.Obj? && IsRoom(items.value.fields, roomId) ==>
              At(a, RoomSpan(items, roomId)) ==
              At(a + |items.lead| + 1 + |items.value.pad|, MemberSpan(items.value.fields, "name"))
    ensures items.value.Obj? && !IsRoom(items.value.fields, roomId) ==>
              At(a, RoomSpan(items, roomId)) == At(NextItem(a, items), RoomSpan(items.rest, roomId))
  {
    hide Text, IsRoom, MemberSpan;
  }

  lemma FindRoomStepOf(json: string, pos: nat, a: nat, items: Items, end: nat, roomId: string)
    requires items.Item? && WfItems(items) && ItemsPlaced(json, pos, a, items, end)
    ensures var p := a + |items.lead|;
            if !items.value.Obj? then FindRoomName(json, pos, end, roomId) == None
            else if IsRoom(items.value.fields, roomId) then
              FindRoomName(json, pos, end, roomId) ==
              At(p + 1 + |items.value.pad|, MemberSpan(items.value.fields, "name"))
            else
              FindRoomName(json, pos, end, roomId) == FindRoomName(json, NextItem(a, items), end, roomId)
  {
    hide FindMember, NamesRoom, IsRoom, Text, ValueEnd, ItemsText, MemberSpan, NextItem, AfterComma;
    var p := a + |items.lead|;
    FirstItem(json, pos, a, items, end);
    if items.value.Obj? {
      NamesRoomOf(json, p, items.value.pad, items.value.fields, roomId);
      ObjectMember(json, p, items.value.pad, items.value.fields, "name");
      NextItemPlaced(json, pos, a, items, end);
    }
  }

  lemma {:induction false} FindRoomOf(json: string, pos: nat, a: nat, items: Items, end: nat, roomId: string)
    requires WfItems(items) && ItemsPlaced(json, pos, a, items, end)
    ensures end <= |json| && FindRoomName(json, pos, end, roomId) == At(a, RoomSpan(items, roomId))
    decreases items
  {
    if items.NoItems? {
      SkipWsTo(json, pos, a);
    } else {
      hide FindRoomName, RoomSpan, IsRoom, At, NextItem, Text, ItemsText;
      FindRoomStepOf(json, pos, a, items, end, roomId);
      RoomSpanCases(a, items, roomId);
      if items.value.Obj? && !IsRoom(items.value.fields, roomId) {
        var next := NextItem(a, items);
        NextItemPlaced(json, pos, a, items, end);
        FindRoomOf(json, next, next, items.rest, end, roomId);
      }
    }
  }

  lemma SpliceRoomHere(items: Items, w: Json)
    requires items.Item? && items.value.Obj? && HasMember(items.value.fields, "name")
    requires MemberSpan(items.value.fields, "name").Some?
    ensures var base := |items.lead| + 1 + |items.value.pad|;
            var (offset, length) := MemberSpan(items.value.fields, "name").value;
            var renamed := items.(value := Obj(items.value.pad, SetMember(items.value.fields, "name", w)));
            base + offset + length <= |ItemsText(items)| &&
            Splice(ItemsText(items), (base + offset, base + (offset + length)), Text(w)) == ItemsText(renamed)
  {
    hide FieldsText, MemberSpan, SetMember, ItemsText, ItemsTail, Splice;
    var pad, fields := items.value.pad, items.value.fields;
    SpliceMember(fields, "name", w);
    var (offset, length) := MemberSpan(fields, "name").value;
    var set' := SetMember(fields, "name", w);
    var post := items.trail + ItemsTail(items.rest);
    SpliceObject(items.lead, pad, FieldsText(fields), post, (offset, offset + length), Text(w));
    ItemShape(items.lead, Obj(pad, fields), items.trail, items.rest);
    ItemShape(items.lead, Obj(pad, set'), items.trail, items.rest);
  }

  lemma ItemShape(lead: string, value: Json, trail: string, rest: Items)
    ensures ItemsText(Item(lead, value, trail, rest)) == lead + Text(value) + (trail + ItemsTail(rest))
    ensures rest.Item? ==>
              ItemsText(Item(lead, value, trail, rest)) == (lead + Text(value) + trail + ",") + ItemsText(rest) + ""
  {
    var head := lead + Text(value);
    assert head + trail + ItemsTail(rest) == head + (trail + ItemsTail(rest));
    if rest.Item? {
      assert head + trail + ("," + ItemsText(rest)) == (head + trail + ",") + ItemsText(rest) + "";
    }
  }

  lemma {:induction false} SpliceRoom(items: Items, roomId: string, w: Json)
    ensures RenameRoom(items, roomId, w).Some? == RoomSpan(items, roomId).Some?
    ensures RoomSpan(items, roomId).Some? ==>
              var (offset, length) := RoomSpan(items, roomId).value;
              offset + length <= |ItemsText(items)| &&
              Splice(ItemsText(items), (offset, offset + length), Text(w)) ==
              ItemsText(RenameRoom(items, roomId, w).value)
    decreases items
  {
    if items.Item? && items.value.Obj? {
      hide IsRoom, FieldsText, MemberSpan, SetMember, ItemsText, Text;
      MemberSpanBound(items.value.fields, "name");
      if IsRoom(items.value.fields, roomId) {
        if HasMember(items.value.fields, "name") {
          SpliceRoomHere(items, w);
        }
      } else {
        SpliceRoom(items.rest, roomId, w);
        if RoomSpan(items.rest, roomId).Some? {
          SpliceRoomLater(items, roomId, w);
        }
      }
    }
  }

  lemma SpliceRoomLater(items: Items, roomId: string, w: Json)
    requires items.Item? && items.value.Obj? && !IsRoom(items.value.fields, roomId)
    requires RoomSpan(items.rest, roomId).Some? && RenameRoom(items.rest, roomId, w).Some?
    requires var (offset, length) := RoomSpan(items.rest, roomId).value;
             offset + length <= |ItemsText(items.rest)| &&
             Splice(ItemsText(items.rest), (offset, offset + length), Text(w)) ==
             ItemsText(RenameRoom(items.rest, roomId, w).value)
    ensures RoomSpan(items, roomId).Some?
    ensures var (offset, length) := RoomSpan(items, roomId).value;
            offset + length <= |ItemsText(items)| &&
            Splice(ItemsText(items), (offset, offset + length), Text(w)) ==
            ItemsText(RenameRoom(items, roomId, w).value)
  {
    hide IsRoom, ItemsText, Text, Splice;
    var (offset, length) := RoomSpan(items.rest, roomId).value;
    var renamed := RenameRoom(items.rest, roomId, w).value;
    assert renamed.Item?;
    var head := items.lead + Text(items.value) + items.trail + ",";
    ItemShape(items.lead, items.value, items.trail, items.rest);
    ItemShape(items.lead, items.value, items.trail, renamed);
    SpliceInside(head, ItemsText(items.rest), "", (offset, offset + length), Text(w));
  }

  // Splicing inside a part is replacing the part by its spliced text.
  lemma SpliceWithin(text: string, at: nat, part: string, range: (nat, nat), w: string)
    requires Holds(text, at, part) && range.0 <= range.1 <= |part|
    ensures Splice(text, (at + range.0, at + range.1), w) == Splice(text, (at, at + |part|), Splice(part, range, w))
  {
    var pre, post := text[..at], text[at + |part|..];
    assert text == pre + part + post;
    SpliceWhole(part, Splice(part, range, w));
    hide Splice;
    SpliceInside(pre, part, post, range, w);
    SpliceInside(pre, part, post, (0, |part|), Splice(part, range, w));
  }

  lemma SpliceWhole(part: string, w: string)
    ensures Splice(part, (0, |part|), w) == w
  {
  }

  lemma SpliceArray(pad: string, items: string, range: (nat, nat), w: string)
    requires range.0 <= range.1 <= |items|
    ensures var text := "[" + (pad + items) + "]";
            Splice(text, (1 + |pad| + range.0, 1 + |pad| + range.1), w) == "[" + (pad + Splice(items, range, w)) + "]"
  {
    var text := "[" + (pad + items) + "]";
    assert text == ("[" + pad) + items + "]";
    SpliceInside("[" + pad, items, "]", range, w);
  }

  lemma ArrayPlaced(doc: string, start: nat, pad: string, items: Items)
    requires Blank(pad) && Holds(doc, start, Text(Arr(pad, items)))
    ensures ItemsPlaced(doc, start + 1, start + 1 + |pad|, items, start + |Text(Arr(pad, items))|)
  {
    var inner := pad + ItemsText(items);
    HoldsSplit(doc, start, "[" + inner, "]");
    HoldsSplit(doc, start, "[", inner);
    HoldsSplit(doc, start + 1, pad, ItemsText(items));
    HoldsStart(doc, start + 1 + |inner|, "]");
  }

  // Where the name is in the text of the document's members.
  function PlanSpan(fields: Fields, roomId: string): Option<(nat, nat)> {
    if HasMember(fields, "rooms") && Member(fields, "rooms").Arr? && MemberSpan(fields, "rooms").Some? then
      var (offset, _) := MemberSpan(fields, "rooms").value;
      var rooms := Member(fields, "rooms");
      ShiftSpan(offset + 1 + |rooms.pad|, RoomSpan(rooms.items, roomId))
    else None
  }

  lemma SplicePlan(fields: Fields, roomId: string, w: Json)
    ensures RenameInPlan(fields, roomId, w).Some? == PlanSpan(fields, roomId).Some?
    ensures PlanSpan(fields, roomId).Some? ==>
              var (offset, length) := PlanSpan(fields, roomId).value;
              offset + length <= |FieldsText(fields)| &&
              Splice(FieldsText(fields), (offset, offset + length), Text(w)) ==
              FieldsText(RenameInPlan(fields, roomId, w).value)
  {
    hide FieldsText, Splice, MemberSpan, SetMember, RoomSpan, RenameRoom, ItemsText;
    MemberSpanBound(fields, "rooms");
    if HasMember(fields, "rooms") && Member(fields, "rooms").Arr? {
      var rooms := Member(fields, "rooms");
      SpliceRoom(rooms.items, roomId, w);
      if RoomSpan(rooms.items, roomId).Some? {
        SplicePlanRooms(fields, roomId, w);
      }
    }
  }

  lemma SplicePlanRooms(fields: Fields, roomId: string, w: Json)
    requires HasMember(fields, "rooms") && Member(fields, "rooms").Arr? && MemberSpan(fields, "rooms").Some?
    requires var rooms := Member(fields, "rooms");
             && RoomSpan(rooms.items, roomId).Some? && RenameRoom(rooms.items, roomId, w).Some?
             && var (o, n) := RoomSpan(rooms.items, roomId).value;
                o + n <= |ItemsText(rooms.items)| &&
                Splice(ItemsText(rooms.items), (o, o + n), Text(w)) ==
                ItemsText(RenameRoom(rooms.items, roomId, w).value)
    ensures var rooms := Member(fields, "rooms");
            var at := MemberSpan(fields, "rooms").value.0 + 1 + |rooms.pad|;
            var (o, n) := RoomSpan(rooms.items, roomId).value;
            at + o + n <= |FieldsText(fields)| &&
            Splice(FieldsText(fields), (at + o, at + o + n), Text(w)) ==
            FieldsText(SetMember(fields, "rooms", Arr(rooms.pad, RenameRoom(rooms.items, roomId, w).value)))
  {
    hide FieldsText, Splice, MemberSpan, SetMember, RoomSpan, RenameRoom, ItemsText;
    var rooms := Member(fields, "rooms");
    var renamed := Arr(rooms.pad, RenameRoom(rooms.items, roomId, w).value);
    var (offset, length) := MemberSpan(fields, "rooms").value;
    var (o, n) := RoomSpan(rooms.items, roomId).value;
    MemberSpanText(fields, "rooms");
    SpliceArray(rooms.pad, ItemsText(rooms.items), (o, o + n), Text(w));
    SpliceWithin(FieldsText(fields), offset, Text(rooms), (1 + |rooms.pad| + o, 1 + |rooms.pad| + (o + n)), Text(w));
    SpliceMember(fields, "rooms", renamed);
  }

  lemma PlanSpanCases(a: nat, fields: Fields, roomId: string)
    ensures !HasMember(fields, "rooms") || !Member(fields, "rooms").Arr? ==> PlanSpan(fields, roomId) == None
    ensures HasMember(fields, "rooms") && Member(fields, "rooms").Arr? ==>
              var rooms := Member(fields, "rooms");
              MemberSpan(fields, "rooms").Some? &&
              At(a, PlanSpan(fields, roomId)) ==
              At(a + MemberSpan(fields, "rooms").value.0 + 1 + |rooms.pad|, RoomSpan(rooms.items, roomId))
  {
    hide MemberSpan, RoomSpan;
    MemberSpanBound(fields, "rooms");
  }

  lemma ObjectRoom(json: string, start: nat, pad: string, fields: Fields, roomId: string)
    requires Wf(Obj(pad, fields)) && Holds(json, start, Text(Obj(pad, fields)))
    ensures RoomNameRange(json, start, start + |Text(Obj(pad, fields))|, roomId) ==
            At(start + 1 + |pad|, PlanSpan(fields, roomId))
  {
    hide FieldsText, Text, MemberSpan, FindMember, FindRoomName, PlanSpan, Member, HasMember, WfFields;
    var a := start + 1 + |pad|;
    ObjectMember(json, start, pad, fields, "rooms");
    PlanSpanCases(a, fields, roomId);
    MemberSpanBound(fields, "rooms");
    if HasMember(fields, "rooms") {
      MemberWf(fields, "rooms");
      MemberSpanText(fields, "rooms");
      RoomsAt(json, a + MemberSpan(fields, "rooms").value.0, Member(fields, "rooms"), roomId);
    }
  }

  lemma DocumentRoom(before: string, pad: string, fields: Fields, after: string, roomId: string)
    requires Wf(Obj(pad, fields))
    ensures RoomNameRange(before + Text(Obj(pad, fields)) + after, |before|, |before| + |Text(Obj(pad, fields))|, roomId) ==
            At(|before| + 1 + |pad|, PlanSpan(fields, roomId))
  {
    hide RoomNameRange, PlanSpan, Text;
    ObjectRoom(before + Text(Obj(pad, fields)) + after, |before|, pad, fields, roomId);
  }

  lemma RoomsAt(doc: string, from: nat, rooms: Json, roomId: string)
    requires Wf(rooms) && Holds(doc, from, Text(rooms))
    ensures from < |doc| && (doc[from] == '[' <==> rooms.Arr?)
    ensures rooms.Arr? ==>
              FindRoomName(doc, from + 1, from + |Text(rooms)|, roomId) ==
              At(from + 1 + |rooms.pad|, RoomSpan(rooms.items, roomId))
  {
    RoomText(doc, from, rooms);
    if rooms.Arr? {
      ArrayPlaced(doc, from, rooms.pad, rooms.items);
      FindRoomOf(doc, from + 1, from + 1 + |rooms.pad|, rooms.items, from + |Text(rooms)|, roomId);
    }
  }

  // Renaming a room in the document's text renders the document with the room renamed, and
  // fails exactly when the document has no such room to rename.
  lemma PatchRoomNameCommutes(before: string, pad: string, fields: Fields, after: string, roomId: string, name: string)
    requires Blank(before) && Blank(after) && Wf(Obj(pad, fields))
    ensures PatchedRoomName(before + Text(Obj(pad, fields)) + after, roomId, name) ==
            match RenameInPlan(fields, roomId, Str(Escape(name)))
            case None => None
            case Some(renamed) => Some(before + Text(Obj(pad, renamed)) + after)
  {
    hide ObjectRange, RoomNameRange, PlanSpan, RenameInPlan, FieldsText, Splice, Escape;
    var w := Str(Escape(name));
    ObjectRangeOf(before, pad, fields, after);
    DocumentRoom(before, pad, fields, after, roomId);
    SplicePlan(fields, roomId, w);
    if PlanSpan(fields, roomId).Some? {
      var (offset, length) := PlanSpan(fields, roomId).value;
      SpliceObject(before, pad, FieldsText(fields), after, (offset, offset + length), Text(w));
    }
  }
}
