/** Finding a member of a rendered object, wherever the object stands in the document. */
module JsonMembers {
  import opened Wrappers
  import opened JsonText
  import opened JsonScan
  import opened JsonRanges

  // Offset and length of the value range of the first member labelled `key`.
  function MemberSpan(fields: Fields, key: string): Option<(nat, nat)> {
    match fields
    case NoFields => None
    case Field(_, k, _, _, value, trail, rest) =>
      if k == key then Some((|Label(fields)|, Span(value, trail)))
      else
        match MemberSpan(rest, key)
        case None => None
        case Some((offset, length)) =>
          Some((|Label(fields)| + |Text(value)| + |trail| + 1 + offset, length))
  }

  function At(base: nat, span: Option<(nat, nat)>): Option<(nat, nat)> {
    match span
    case None => None
    case Some((offset, length)) => Some((base + offset, base + offset + length))
  }

  lemma {:induction false} SkipWsTo(json: string, i: nat, j: nat)
    requires i <= j <= |json| && Blank(json[i..j])
    requires j == |json| || !IsWs(json[j])
    ensures SkipWs(json, i) == j
    decreases j - i
  {
    if i < j {
      assert IsWs(json[i..j][0]);
      assert json[i + 1..j] == json[i..j][1..];
      SkipWsTo(json, i + 1, j);
    }
  }

  lemma TextStart(v: Json)
    requires Wf(v)
    ensures Text(v) != "" && !IsWs(Text(v)[0]) && !Delimiter(Text(v)[0])
  {
    if v.Scalar? {
      assert ScalarChar(v.text[0]);
    }
  }

  // The slice of `json` at `a` is `text`.
  predicate Holds(json: string, a: nat, text: string) {
    a + |text| <= |json| && json[a..a + |text|] == text
  }

  lemma HoldsSplit(json: string, a: nat, x: string, y: string)
    requires Holds(json, a, x + y)
    ensures Holds(json, a, x) && Holds(json, a + |x|, y)
  {
    var z := json[a..a + |x + y|];
    assert z[..|x|] == x && z[|x|..] == y;
    assert json[a..a + |x|] == z[..|x|];
    assert json[a + |x|..a + |x| + |y|] == z[|x|..];
  }

  lemma LabelParts(json: string, a: nat, f: Fields)
    requires f.Field? && Holds(json, a, Label(f))
    ensures var p := a + |f.lead|;
            var m := p + |f.key| + 2;
            var q := m + |f.mid|;
            && Holds(json, a, f.lead) && Holds(json, p, "\"")
            && Holds(json, p + 1, f.key) && Holds(json, p + 1 + |f.key|, "\"")
            && Holds(json, m, f.mid) && Holds(json, q, ":") && Holds(json, q + 1, f.gap)
  {
    var p := a + |f.lead|;
    HoldsSplit(json, a, f.lead + Quoted(f.key) + f.mid + ":", f.gap);
    HoldsSplit(json, a, f.lead + Quoted(f.key) + f.mid, ":");
    HoldsSplit(json, a, f.lead + Quoted(f.key), f.mid);
    HoldsSplit(json, a, f.lead, Quoted(f.key));
    HoldsSplit(json, p, "\"" + f.key, "\"");
    HoldsSplit(json, p, "\"", f.key);
  }

  // The text of a member, its value and what follows, cut apart.
  lemma FieldParts(json: string, a: nat, fields: Fields)
    requires fields.Field? && Holds(json, a, FieldsText(fields))
    ensures var b := a + |Label(fields)|;
            var c := b + |Text(fields.value)|;
            && Holds(json, a, Label(fields)) && Holds(json, b, Text(fields.value))
            && Holds(json, c, fields.trail) && Holds(json, c + |fields.trail|, FieldsTail(fields.rest))
            && |FieldsText(fields)| == c + |fields.trail| + |FieldsTail(fields.rest)| - a
  {
    var l, v, t := Label(fields), Text(fields.value), fields.trail;
    HoldsSplit(json, a, l + v + t, FieldsTail(fields.rest));
    HoldsSplit(json, a, l + v, t);
    HoldsSplit(json, a, l, v);
  }

  lemma StringEndAt(json: string, p: nat, body: string, end: nat)
    requires StringBody(body) && p + |body| < end <= |json|
    requires Holds(json, p, body) && json[p + |body|] == '"'
    ensures StringEnd(json[p..end], false) == Some(|body| + 1)
  {
    var m := p + |body| + 1;
    assert json[p..end] == json[p..p + |body|] + "\"" + json[m..end];
    StringEndOf(body, json[m..end]);
  }

  lemma ValueEndAt(json: string, from: nat, value: Json, trail: string, end: nat)
    requires Wf(value) && Blank(trail) && from + |Text(value)| + |trail| < end <= |json|
    requires Holds(json, from, Text(value)) && Holds(json, from + |Text(value)|, trail)
    requires Delimiter(json[from + |Text(value)| + |trail|])
    ensures ValueEnd(json[from..end]) == Some(Span(value, trail))
  {
    var text := Text(value);
    var c := from + |text| + |trail|;
    assert json[from..end] == json[from..from + |text|] + json[from + |text|..c] + json[c..end];
    ValueEndOf(value, trail, json[c..end]);
  }

  lemma HoldsStart(json: string, a: nat, text: string)
    requires text != "" && Holds(json, a, text)
    ensures json[a] == text[0]
  {
    assert json[a..a + |text|][0] == json[a];
  }

  lemma ReadMemberShape(json: string, pos: nat, p: nat, k: nat, q: nat, from: nat, n: nat, end: nat)
    requires pos <= p && p + 1 + k <= q < from < end <= |json| && k > 0
    requires Blank(json[pos..p]) && json[p] == '"' && StringEnd(json[p + 1..end], false) == Some(k)
    requires Blank(json[p + 1 + k..q]) && json[q] == ':'
    requires Blank(json[q + 1..from]) && !IsWs(json[from]) && ValueEnd(json[from..end]) == Some(n)
    ensures ReadMember(json, pos, end) == Some(MemberAt(p + 1, p + k, from, from + n))
  {
    hide Blank, SkipWs, StringEnd, ValueEnd;
    MemberStops(json, pos, p, p + 1 + k, q, from);
    hide IsWs;
  }

  lemma MemberStops(json: string, pos: nat, p: nat, k: nat, q: nat, from: nat)
    requires pos <= p < k <= q < from < |json|
    requires Blank(json[pos..p]) && json[p] == '"' && Blank(json[k..q]) && json[q] == ':'
    requires Blank(json[q + 1..from]) && !IsWs(json[from])
    ensures SkipWs(json, pos) == p && SkipWs(json, k) == q && SkipWs(json, q + 1) == from
  {
    hide Blank, SkipWs;
    SkipWsTo(json, pos, p);
    SkipWsTo(json, k, q);
    SkipWsTo(json, q + 1, from);
  }

  lemma KeyRead(json: string, pos: nat, a: nat, f: Fields, end: nat)
    requires f.Field? && WfFields(f) && pos <= a && a + |Label(f)| < end <= |json|
    requires Blank(json[pos..a]) && Holds(json, a, Label(f))
    ensures var p := a + |f.lead|;
            && Blank(json[pos..p]) && json[p] == '"'
            && StringEnd(json[p + 1..end], false) == Some(|f.key| + 1)
  {
    var p := a + |f.lead|;
    LabelParts(json, a, f);
    BlankJoin(json, pos, a, p);
    HoldsStart(json, p, "\"");
    HoldsStart(json, p + 1 + |f.key|, "\"");
    StringEndAt(json, p + 1, f.key, end);
  }

  lemma ColonRead(json: string, a: nat, f: Fields)
    requires f.Field? && WfFields(f) && Holds(json, a, Label(f))
    ensures var m := a + |f.lead| + |f.key| + 2;
            var q := m + |f.mid|;
            && Blank(json[m..q]) && json[q] == ':' && Blank(json[q + 1..a + |Label(f)|])
  {
    LabelParts(json, a, f);
    HoldsStart(json, a + |f.lead| + |f.key| + 2 + |f.mid|, ":");
  }

  lemma ReadMemberOf(json: string, pos: nat, a: nat, f: Fields, end: nat)
    requires f.Field? && WfFields(f) && pos <= a && a + |Label(f)| < end <= |json|
    requires Blank(json[pos..a]) && Holds(json, a, Label(f))
    requires !IsWs(json[a + |Label(f)|])
    requires ValueEnd(json[a + |Label(f)|..end]) == Some(Span(f.value, f.trail))
    ensures var p := a + |f.lead|;
            var from := a + |Label(f)|;
            ReadMember(json, pos, end) ==
            Some(MemberAt(p + 1, p + 1 + |f.key|, from, from + Span(f.value, f.trail)))
  {
    hide ReadMember, StringEnd, ValueEnd, Text, WfFields;
    var p := a + |f.lead|;
    KeyRead(json, pos, a, f, end);
    ColonRead(json, a, f);
    ReadMemberShape(json, pos, p, |f.key| + 1, p + |f.key| + 2 + |f.mid|, a + |Label(f)|,
                    Span(f.value, f.trail), end);
  }

  lemma BlankJoin(json: string, i: nat, j: nat, k: nat)
    requires i <= j <= k <= |json| && Blank(json[i..j]) && Blank(json[j..k])
    ensures Blank(json[i..k])
  {
    assert json[i..k] == json[i..j] + json[j..k];
  }

  // After a value range, the blanks before the delimiter are skipped (or already passed).
  lemma TrailSkip(json: string, from: nat, value: Json, trail: string)
    requires Wf(value) && Blank(trail) && from + |Text(value)| + |trail| < |json|
    requires Holds(json, from + |Text(value)|, trail)
    requires Delimiter(json[from + |Text(value)| + |trail|])
    ensures SkipWs(json, from + Span(value, trail)) == from + |Text(value)| + |trail|
  {
    var c := from + |Text(value)| + |trail|;
    if value.Scalar? {
      SkipWsTo(json, c, c);
    } else {
      SkipWsTo(json, from + |Text(value)|, c);
    }
  }

  // The members' text stands at `a`, with blanks before it from `pos` and the closing brace at its end.
  predicate Placed(json: string, pos: nat, a: nat, fields: Fields, end: nat) {
    && pos <= a && end == a + |FieldsText(fields)| + 1 <= |json|
    && Blank(json[pos..a]) && Holds(json, a, FieldsText(fields)) && json[end - 1] == '}'
  }

  // Where the members after the first one start.
  function NextField(a: nat, fields: Fields): nat
    requires fields.Field?
  {
    a + |Label(fields)| + |Text(fields.value)| + |fields.trail| + if fields.rest.NoFields? then 0 else 1
  }

  lemma MemberSpanNext(a: nat, fields: Fields, key: string)
    ensures fields.NoFields? ==> At(a, MemberSpan(fields, key)) == None
    ensures fields.Field? && fields.key == key ==>
              var from := a + |Label(fields)|;
              At(a, MemberSpan(fields, key)) == Some((from, from + Span(fields.value, fields.trail)))
    ensures fields.Field? && fields.key != key ==>
              At(a, MemberSpan(fields, key)) == At(NextField(a, fields), MemberSpan(fields.rest, key))
  {
  }

  lemma RestPlaced(json: string, pos: nat, a: nat, fields: Fields, end: nat)
    requires fields.Field? && WfFields(fields) && Placed(json, pos, a, fields, end)
    ensures var next := NextField(a, fields);
            Placed(json, next, next, fields.rest, end)
    ensures var c := a + |Label(fields)| + |Text(fields.value)| + |fields.trail|;
            c < end && (if fields.rest.Field? then json[c] == ',' else c + 1 == end && json[c] == '}')
  {
    FieldParts(json, a, fields);
    hide Wf, Blank, Label;
    var c := a + |Label(fields)| + |Text(fields.value)| + |fields.trail|;
    if fields.rest.Field? {
      HoldsSplit(json, c, ",", FieldsText(fields.rest));
      HoldsStart(json, c, ",");
    }
    NoBlank(json, NextField(a, fields));
  }

  lemma NoBlank(json: string, at: nat)
    ensures at <= |json| ==> Blank(json[at..at])
  {
  }

  lemma NextPlaced(json: string, pos: nat, a: nat, fields: Fields, end: nat)
    requires fields.Field? && WfFields(fields) && Placed(json, pos, a, fields, end)
    ensures var next := NextField(a, fields);
            && Placed(json, next, next, fields.rest, end)
            && AfterComma(json, a + |Label(fields)| + Span(fields.value, fields.trail), end) == next
            && Delimiter(json[a + |Label(fields)| + |Text(fields.value)| + |fields.trail|])
  {
    hide Text, FieldsText, Label, Holds, Wf, Blank, SkipWs, Span;
    RestPlaced(json, pos, a, fields, end);
    FieldTrail(json, pos, a, fields, end);
    hide Placed;
    TrailSkip(json, a + |Label(fields)|, fields.value, fields.trail);
  }

  lemma FieldTrail(json: string, pos: nat, a: nat, fields: Fields, end: nat)
    requires fields.Field? && WfFields(fields) && Placed(json, pos, a, fields, end)
    ensures Holds(json, a + |Label(fields)| + |Text(fields.value)|, fields.trail) && Wf(fields.value) && Blank(fields.trail)
  {
    FieldParts(json, a, fields);
  }

  lemma FirstMember(json: string, pos: nat, a: nat, fields: Fields, end: nat)
    requires fields.Field? && WfFields(fields) && Placed(json, pos, a, fields, end)
    ensures var p := a + |fields.lead|;
            var from := a + |Label(fields)|;
            && ReadMember(json, pos, end) ==
               Some(MemberAt(p + 1, p + 1 + |fields.key|, from, from + Span(fields.value, fields.trail)))
            && json[p + 1..p + 1 + |fields.key|] == fields.key
  {
    hide ReadMember, ValueEnd, Text, FieldsText;
    FieldParts(json, a, fields);
    FirstValue(json, pos, a, fields, end);
    ReadMemberOf(json, pos, a, fields, end);
    LabelParts(json, a, fields);
  }

  lemma FirstValue(json: string, pos: nat, a: nat, fields: Fields, end: nat)
    requires fields.Field? && WfFields(fields) && Placed(json, pos, a, fields, end)
    ensures var from := a + |Label(fields)|;
            from < end && !IsWs(json[from]) && ValueEnd(json[from..end]) == Some(Span(fields.value, fields.trail))
  {
    var from := a + |Label(fields)|;
    hide ValueEnd, Blank, Span, Text, FieldsText, Label, AfterComma;
    FieldParts(json, a, fields);
    NextPlaced(json, pos, a, fields, end);
    TextStart(fields.value);
    HoldsStart(json, from, Text(fields.value));
    ValueEndAt(json, from, fields.value, fields.trail, end);
  }

  // The search moves on from a member with another key.
  lemma FindMemberNext(json: string, pos: nat, a: nat, fields: Fields, end: nat, key: string)
    requires fields.Field? && WfFields(fields) && Placed(json, pos, a, fields, end)
    requires fields.key != key
    ensures FindMember(json, pos, end, key) == FindMember(json, NextField(a, fields), end, key)
  {
    hide ReadMember, FindMember, Text, FieldsText;
    FirstMember(json, pos, a, fields, end);
    FindMemberStep(json, pos, end, key);
    NextPlaced(json, pos, a, fields, end);
  }

  lemma FindMemberEmpty(json: string, pos: nat, a: nat, fields: Fields, end: nat, key: string)
    requires fields.NoFields? && Placed(json, pos, a, fields, end)
    ensures FindMember(json, pos, end, key) == None
  {
    SkipWsTo(json, pos, a);
  }

  lemma FindMemberHit(json: string, pos: nat, a: nat, fields: Fields, end: nat)
    requires fields.Field? && WfFields(fields) && Placed(json, pos, a, fields, end)
    ensures var from := a + |Label(fields)|;
            FindMember(json, pos, end, fields.key) == Some((from, from + Span(fields.value, fields.trail)))
  {
    hide ReadMember, Text, FieldsText;
    FirstMember(json, pos, a, fields, end);
  }

  // The search finds the first member with the key.  Blanks may precede the members, as after
  // the opening brace.
  lemma {:induction false} FindMemberOf(json: string, pos: nat, a: nat, fields: Fields, end: nat, key: string)
    requires WfFields(fields) && Placed(json, pos, a, fields, end)
    ensures end <= |json| && FindMember(json, pos, end, key) == At(a, MemberSpan(fields, key))
    decreases fields
  {
    assert Placed(json, pos, a, fields, end) && end <= |json|;
    hide FindMember, MemberSpan, At, NextField, Text, Label, FieldsText, AfterComma;
    MemberSpanNext(a, fields, key);
    if fields.NoFields? {
      FindMemberEmpty(json, pos, a, fields, end, key);
    } else if fields.key == key {
      FindMemberHit(json, pos, a, fields, end);
    } else {
      var next := NextField(a, fields);
      FindMemberNext(json, pos, a, fields, end, key);
      NextPlaced(json, pos, a, fields, end);
      FindMemberOf(json, next, next, fields.rest, end, key);
    }
  }
}
