/** Patching the text of a document is the same as patching the document. */
module FloorplanPatchProof {
  import opened Wrappers
  import opened JsonText
  import opened JsonScan
  import opened JsonRanges
  import opened JsonMembers
  import opened JsonLiteral
  import opened FloorplanPatch

  predicate HasMember(fields: Fields, key: string) {
    fields.Field? && (fields.key == key || HasMember(fields.rest, key))
  }

  // The value of the first member labelled `key`.
  function Member(fields: Fields, key: string): Json
    requires HasMember(fields, key)
  {
    if fields.key == key then fields.value else Member(fields.rest, key)
  }

  // Replace that value.  Blanks after a number or word go with it.
  function SetMember(fields: Fields, key: string, w: Json): (r: Fields)
    requires HasMember(fields, key)
    ensures HasMember(r, key) && Member(r, key) == w
  {
    if fields.key == key then
      fields.(value := w, trail := if fields.value.Scalar? then "" else fields.trail)
    else fields.(rest := SetMember(fields.rest, key, w))
  }

  lemma {:induction false} SetMemberKeepsOthers(fields: Fields, key: string, w: Json, other: string)
    requires HasMember(fields, key) && other != key
    ensures HasMember(SetMember(fields, key, w), other) == HasMember(fields, other)
    ensures HasMember(fields, other) ==> Member(SetMember(fields, key, w), other) == Member(fields, other)
  {
    if fields.key != key {
      SetMemberKeepsOthers(fields.rest, key, w, other);
    }
  }

  lemma {:induction false} SetMemberWf(fields: Fields, key: string, w: Json)
    requires HasMember(fields, key) && WfFields(fields) && Wf(w)
    ensures WfFields(SetMember(fields, key, w))
  {
    if fields.key != key {
      SetMemberWf(fields.rest, key, w);
    }
  }

  lemma SpliceInside(pre: string, mid: string, post: string, range: (nat, nat), w: string)
    requires range.0 <= range.1 <= |mid|
    ensures Splice(pre + mid + post, (|pre| + range.0, |pre| + range.1), w) == pre + Splice(mid, range, w) + post
  {
    var all := pre + mid + post;
    assert all[..|pre| + range.0] == pre + mid[..range.0];
    assert all[|pre| + range.1..] == mid[range.1..] + post;
  }

  lemma {:induction false} MemberSpanBound(fields: Fields, key: string)
    ensures MemberSpan(fields, key).Some? == HasMember(fields, key)
    ensures MemberSpan(fields, key).Some? ==>
              var (offset, length) := MemberSpan(fields, key).value; offset + length <= |FieldsText(fields)|
  {
    if fields.Field? && fields.key != key {
      MemberSpanBound(fields.rest, key);
    }
  }

  lemma SpliceHere(fields: Fields, w: Json)
    requires fields.Field?
    ensures MemberSpan(fields, fields.key).Some?
    ensures var (offset, length) := MemberSpan(fields, fields.key).value;
            offset + length <= |FieldsText(fields)| &&
            Splice(FieldsText(fields), (offset, offset + length), Text(w)) ==
            FieldsText(SetMember(fields, fields.key, w))
  {
    var set' := SetMember(fields, fields.key, w);
    assert Label(set') == Label(fields);
    var l, v, t, tail := Label(fields), Text(fields.value), fields.trail, FieldsTail(fields.rest);
    assert FieldsText(fields) == l + v + t + tail && FieldsText(set') == l + Text(w) + set'.trail + tail;
    hide Label, FieldsText, FieldsTail, Text, Splice;
    SpliceMiddle(l, v, t, tail, Text(w));
    SpliceTrail(l, v, t, tail, Text(w));
  }

  lemma SpliceMiddle(l: string, v: string, t: string, tail: string, w: string)
    ensures |l| + |v| <= |l + v + t + tail| && Splice(l + v + t + tail, (|l|, |l| + |v|), w) == l + w + t + tail
  {
    assert (l + v + t + tail)[|l| + |v|..] == t + tail;
  }

  lemma SpliceTrail(l: string, v: string, t: string, tail: string, w: string)
    ensures |l| + |v| + |t| <= |l + v + t + tail|
    ensures Splice(l + v + t + tail, (|l|, |l| + (|v| + |t|)), w) == l + w + "" + tail
  {
    assert (l + v + t + tail)[|l| + |v| + |t|..] == tail;
  }

  lemma TextLater(fields: Fields)
    requires fields.Field? && fields.rest.Field?
    ensures var head := Label(fields) + Text(fields.value) + fields.trail;
            FieldsText(fields) == (head + ",") + FieldsText(fields.rest) + ""
  {
    var head := Label(fields) + Text(fields.value) + fields.trail;
    assert head + ("," + FieldsText(fields.rest)) == (head + ",") + FieldsText(fields.rest) + "";
  }

  lemma SetLater(fields: Fields, key: string, w: Json)
    requires fields.Field? && fields.key != key && HasMember(fields, key)
    ensures var set' := SetMember(fields, key, w);
            && set'.Field? && set'.rest == SetMember(fields.rest, key, w) && set'.rest.Field?
            && Label(set') == Label(fields) && set'.value == fields.value && set'.trail == fields.trail
  {
  }

  lemma SpliceLater(fields: Fields, key: string, w: Json, range: (nat, nat))
    requires fields.Field? && fields.key != key && HasMember(fields, key)
    requires range.0 <= range.1 <= |FieldsText(fields.rest)|
    requires Splice(FieldsText(fields.rest), range, Text(w)) == FieldsText(SetMember(fields.rest, key, w))
    ensures var base := |Label(fields)| + |Text(fields.value)| + |fields.trail| + 1;
            base + range.1 <= |FieldsText(fields)| &&
            Splice(FieldsText(fields), (base + range.0, base + range.1), Text(w)) ==
            FieldsText(SetMember(fields, key, w))
  {
    hide FieldsText, Text, Label, SetMember, Splice;
    var set' := SetMember(fields, key, w);
    SetLater(fields, key, w);
    var head := Label(fields) + Text(fields.value) + fields.trail;
    TextLater(fields);
    TextLater(set');
    SpliceInside(head + ",", FieldsText(fields.rest), "", range, Text(w));
  }

  lemma {:induction false} SpliceMember(fields: Fields, key: string, w: Json)
    requires HasMember(fields, key)
    ensures MemberSpan(fields, key).Some?
    ensures var (offset, length) := MemberSpan(fields, key).value;
            offset + length <= |FieldsText(fields)| &&
            Splice(FieldsText(fields), (offset, offset + length), Text(w)) == FieldsText(SetMember(fields, key, w))
  {
    hide FieldsText, Text, Label, Splice, SetMember;
    if fields.key == key {
      SpliceHere(fields, w);
    } else {
      SpliceMember(fields.rest, key, w);
      var (offset, length) := MemberSpan(fields.rest, key).value;
      SpliceLater(fields, key, w, (offset, offset + length));
    }
  }

  lemma ObjectRangeOf(before: string, pad: string, fields: Fields, after: string)
    requires Blank(before) && Blank(pad) && Blank(after) && WfFields(fields)
    ensures ObjectRange(before + Text(Obj(pad, fields)) + after) ==
            Some((|before|, |before| + |Text(Obj(pad, fields))|))
  {
    var text := Text(Obj(pad, fields));
    assert text[0] == '{';
    ObjEndOf(pad, fields, after);
    RangeOf(before, text, after);
  }

  lemma RangeOf(before: string, text: string, after: string)
    requires Blank(before) && Blank(after) && text != "" && text[0] == '{' && ValueEnd(text + after) == Some(|text|)
    ensures ObjectRange(before + text + after) == Some((|before|, |before| + |text|))
  {
    var doc := before + text + after;
    var end := |before| + |text|;
    assert doc[0..|before|] == before && doc[end..|doc|] == after && doc[|before|..] == text + after;
    SkipWsTo(doc, 0, |before|);
    SkipWsTo(doc, end, |doc|);
  }

  lemma DocumentPlaced(before: string, pad: string, fields: Fields, after: string)
    requires Blank(pad)
    ensures Placed(before + Text(Obj(pad, fields)) + after, |before| + 1, |before| + 1 + |pad|, fields,
                   |before| + |Text(Obj(pad, fields))|)
  {
    ObjectPlaced(before + Text(Obj(pad, fields)) + after, |before|, pad, fields);
  }

  lemma ObjectPlaced(doc: string, start: nat, pad: string, fields: Fields)
    requires Blank(pad) && Holds(doc, start, Text(Obj(pad, fields)))
    ensures Placed(doc, start + 1, start + 1 + |pad|, fields, start + |Text(Obj(pad, fields))|)
  {
    var inner := pad + FieldsText(fields);
    HoldsSplit(doc, start, "{" + inner, "}");
    HoldsSplit(doc, start, "{", inner);
    HoldsSplit(doc, start + 1, pad, FieldsText(fields));
    HoldsStart(doc, start + 1 + |inner|, "}");
  }

  lemma SpliceObject(before: string, pad: string, text: string, after: string, range: (nat, nat), w: string)
    requires range.0 <= range.1 <= |text|
    ensures var a := |before| + 1 + |pad|;
            var doc := before + ("{" + (pad + text) + "}") + after;
            a + range.1 <= |doc| &&
            Splice(doc, (a + range.0, a + range.1), w) == before + ("{" + (pad + Splice(text, range, w)) + "}") + after
  {
    var doc := before + ("{" + (pad + text) + "}") + after;
    var pre, post := before + "{" + pad, "}" + after;
    assert doc == pre + text + post;
    SpliceInside(pre, text, post, range, w);
  }

  // Where the search for a member of the document ends.
  lemma DocumentMember(before: string, pad: string, fields: Fields, after: string, key: string)
    requires Blank(before) && Blank(after) && Wf(Obj(pad, fields))
    ensures var doc := before + Text(Obj(pad, fields)) + after;
            var end := |before| + |Text(Obj(pad, fields))|;
            && ObjectRange(doc) == Some((|before|, end)) && end <= |doc|
            && FindMember(doc, |before| + 1, end, key) == At(|before| + 1 + |pad|, MemberSpan(fields, key))
  {
    hide Text, FieldsText, ObjectRange, FindMember, Placed;
    ObjectRangeOf(before, pad, fields, after);
    DocumentPlaced(before, pad, fields, after);
    FindMemberOf(before + Text(Obj(pad, fields)) + after, |before| + 1, |before| + 1 + |pad|, fields,
                 |before| + |Text(Obj(pad, fields))|, key);
  }

  // Patching a member of the document's text renders the document with that member replaced;
  // without such a member there is no patch.
  lemma PatchMemberCommutes(before: string, pad: string, fields: Fields, after: string, key: string, w: Json)
    requires Blank(before) && Blank(after) && Wf(Obj(pad, fields))
    ensures PatchedMember(before + Text(Obj(pad, fields)) + after, key, Text(w)) ==
            if HasMember(fields, key)
            then Some(before + Text(Obj(pad, SetMember(fields, key, w))) + after) else None
  {
    hide ObjectRange, FindMember, FieldsText, MemberSpan, SetMember, Splice;
    DocumentMember(before, pad, fields, after, key);
    MemberSpanBound(fields, key);
    if HasMember(fields, key) {
      SpliceMember(fields, key, w);
      var (offset, length) := MemberSpan(fields, key).value;
      SpliceObject(before, pad, FieldsText(fields), after, (offset, offset + length), Text(w));
    }
  }
}
