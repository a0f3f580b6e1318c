/** The scanners measure exactly the rendered values: nesting, strings and escapes included. */
module JsonRanges {
  import opened Wrappers
  import opened JsonText
  import opened JsonScan

  // Reading `a` between the brackets of an `open` value, at a given depth, changes nothing.
  ghost predicate Skips(a: string, open: char, depth: int) {
    forall rest: string :: NestEnd(a + rest, open, depth, false, false) ==
                           Shift(|a|, NestEnd(rest, open, depth, false, false))
  }

  predicate Bracket(open: char) {
    open == '{' || open == '['
  }

  predicate PlainText(s: string, open: char) {
    forall i | 0 <= i < |s| :: s[i] != '"' && s[i] != open && s[i] != Closer(open)
  }

  lemma {:induction false} NestEndPlain(s: string, rest: string, open: char, depth: int)
    requires PlainText(s, open)
    ensures NestEnd(s + rest, open, depth, false, false) == Shift(|s|, NestEnd(rest, open, depth, false, false))
  {
    if s == "" {
      assert s + rest == rest;
    } else {
      NestEndPlain(s[1..], rest, open, depth);
      assert (s + rest)[1..] == s[1..] + rest;
    }
  }

  lemma SkipsPlain(s: string, open: char, depth: int)
    requires PlainText(s, open)
    ensures Skips(s, open, depth)
  {
    forall rest: string ensures NestEnd(s + rest, open, depth, false, false) ==
                                Shift(|s|, NestEnd(rest, open, depth, false, false)) {
      NestEndPlain(s, rest, open, depth);
    }
  }

  lemma {:induction false} NestEndInString(body: string, rest: string, open: char, depth: int)
    requires StringBody(body)
    ensures NestEnd(body + "\"" + rest, open, depth, true, false) ==
            Shift(|body| + 1, NestEnd(rest, open, depth, false, false))
  {
    var s := body + "\"" + rest;
    if body == "" {
      assert s[1..] == rest;
    } else if body[0] == '\\' {
      NestEndInString(body[2..], rest, open, depth);
      assert s[1..][1..] == body[2..] + "\"" + rest;
      assert NestEnd(s, open, depth, true, false) == Shift(1, NestEnd(s[1..], open, depth, true, true));
      assert NestEnd(s[1..], open, depth, true, true) == Shift(1, NestEnd(s[1..][1..], open, depth, true, false));
    } else {
      NestEndInString(body[1..], rest, open, depth);
      assert s[1..] == body[1..] + "\"" + rest;
    }
  }

  lemma SkipsQuoted(body: string, open: char, depth: int)
    requires Bracket(open) && StringBody(body)
    ensures Skips(Quoted(body), open, depth)
  {
    forall rest: string ensures NestEnd(Quoted(body) + rest, open, depth, false, false) ==
                                Shift(|Quoted(body)|, NestEnd(rest, open, depth, false, false)) {
      NestEndInString(body, rest, open, depth);
      assert (Quoted(body) + rest)[1..] == body + "\"" + rest;
    }
  }

  lemma SkipsUse(a: string, open: char, depth: int, rest: string)
    requires Skips(a, open, depth)
    ensures NestEnd(a + rest, open, depth, false, false) == Shift(|a|, NestEnd(rest, open, depth, false, false))
  {
  }

  lemma Associates(a: string, b: string, c: string)
    ensures a + b + c == a + (b + c)
  {
  }

  lemma SkipsConcat(a: string, b: string, open: char, depth: int)
    requires Skips(a, open, depth) && Skips(b, open, depth)
    ensures Skips(a + b, open, depth)
  {
    hide NestEnd;
    forall rest: string ensures NestEnd(a + b + rest, open, depth, false, false) ==
                                Shift(|a + b|, NestEnd(rest, open, depth, false, false)) {
      SkipsConcatAt(a, b, open, depth, rest);
    }
  }

  lemma SkipsConcatAt(a: string, b: string, open: char, depth: int, rest: string)
    requires Skips(a, open, depth) && Skips(b, open, depth)
    ensures NestEnd(a + b + rest, open, depth, false, false) == Shift(|a + b|, NestEnd(rest, open, depth, false, false))
  {
    hide NestEnd, Skips;
    Associates(a, b, rest);
    SkipsUse(a, open, depth, b + rest);
    SkipsUse(b, open, depth, rest);
  }

  // A nested value of the same kind goes one level deeper and comes back.
  lemma SkipsNested(a: string, open: char, depth: int)
    requires Bracket(open) && depth >= 1 && Skips(a, open, depth + 1)
    ensures Skips([open] + a + [Closer(open)], open, depth)
  {
    var all := [open] + a + [Closer(open)];
    hide NestEnd;
    forall rest: string ensures NestEnd(all + rest, open, depth, false, false) ==
                                Shift(|all|, NestEnd(rest, open, depth, false, false)) {
      SkipsNestedAt(a, open, depth, rest);
    }
  }

  lemma NestOpens(a: string, open: char, depth: int)
    requires Bracket(open) && depth >= 0
    ensures NestEnd([open] + a, open, depth, false, false) == Shift(1, NestEnd(a, open, depth + 1, false, false))
  {
    assert ([open] + a)[1..] == a;
  }

  lemma NestCloses(rest: string, open: char, depth: int)
    requires Bracket(open) && depth >= 1
    ensures NestEnd([Closer(open)] + rest, open, depth, false, false) ==
            if depth == 1 then Some(1) else Shift(1, NestEnd(rest, open, depth - 1, false, false))
  {
    assert ([Closer(open)] + rest)[1..] == rest;
  }

  lemma SkipsNestedAt(a: string, open: char, depth: int, rest: string)
    requires Bracket(open) && depth >= 1 && Skips(a, open, depth + 1)
    ensures var all := [open] + a + [Closer(open)];
            NestEnd(all + rest, open, depth, false, false) == Shift(|all|, NestEnd(rest, open, depth, false, false))
  {
    hide NestEnd, Skips;
    var tail := [Closer(open)] + rest;
    Associates([open] + a, [Closer(open)], rest);
    Associates([open], a, tail);
    NestOpens(a + tail, open, depth);
    SkipsUse(a, open, depth + 1, tail);
    NestCloses(rest, open, depth + 1);
  }

  // A nested value of the other kind is transparent.
  lemma SkipsOther(a: string, other: char, open: char, depth: int)
    requires Bracket(open) && Bracket(other) && open != other && Skips(a, open, depth)
    ensures Skips([other] + a + [Closer(other)], open, depth)
  {
    SkipsPlain([other], open, depth);
    SkipsPlain([Closer(other)], open, depth);
    SkipsConcat([other], a, open, depth);
    SkipsConcat([other] + a, [Closer(other)], open, depth);
  }

  lemma SkipsBracketed(a: string, kind: char, open: char, depth: int)
    requires Bracket(open) && Bracket(kind) && depth >= 1
    requires Skips(a, open, depth) && Skips(a, open, depth + 1)
    ensures Skips([kind] + a + [Closer(kind)], open, depth)
  {
    if kind == open {
      SkipsNested(a, open, depth);
    } else {
      SkipsOther(a, kind, open, depth);
    }
  }

  lemma {:induction false} SkipsValue(v: Json, open: char, depth: int)
    requires Bracket(open) && Wf(v) && depth >= 1
    ensures Skips(Text(v), open, depth)
    decreases v
  {
    hide Skips;
    match v
    case Scalar(text) => SkipsPlain(text, open, depth);
    case Str(body) => SkipsQuoted(body, open, depth);
    case Arr(pad, items) =>
      SkipsContents(pad, ItemsText(items), open, depth) by {
        SkipsItems(items, open, depth);
        SkipsItems(items, open, depth + 1);
      }
      SkipsBracketed(pad + ItemsText(items), '[', open, depth);
    case Obj(pad, fields) =>
      SkipsContents(pad, FieldsText(fields), open, depth) by {
        SkipsFields(fields, open, depth);
        SkipsFields(fields, open, depth + 1);
      }
      SkipsBracketed(pad + FieldsText(fields), '{', open, depth);
  }

  lemma SkipsContents(pad: string, contents: string, open: char, depth: int)
    requires Bracket(open) && Blank(pad) && Skips(contents, open, depth) && Skips(contents, open, depth + 1)
    ensures Skips(pad + contents, open, depth) && Skips(pad + contents, open, depth + 1)
  {
    hide Skips;
    SkipsPlain(pad, open, depth);
    SkipsPlain(pad, open, depth + 1);
    SkipsConcat(pad, contents, open, depth);
    SkipsConcat(pad, contents, open, depth + 1);
  }

  lemma {:induction false} SkipsItems(items: Items, open: char, depth: int)
    requires Bracket(open) && WfItems(items) && depth >= 1
    ensures Skips(ItemsText(items), open, depth)
    ensures Skips(ItemsTail(items), open, depth)
    decreases items
  {
    hide Skips;
    SkipsPlain("", open, depth);
    if items.Item? {
      SkipsPlain(items.lead, open, depth);
      SkipsValue(items.value, open, depth);
      SkipsPlain(items.trail, open, depth);
      SkipsItems(items.rest, open, depth);
      SkipsConcat(items.lead, Text(items.value), open, depth);
      SkipsConcat(items.lead + Text(items.value), items.trail, open, depth);
      SkipsConcat(items.lead + Text(items.value) + items.trail, ItemsTail(items.rest), open, depth);
      SkipsPlain(",", open, depth);
      SkipsConcat(",", ItemsText(items), open, depth);
    }
  }

  lemma SkipsLabel(fields: Fields, open: char, depth: int)
    requires Bracket(open) && fields.Field? && WfFields(fields)
    ensures Skips(Label(fields), open, depth)
  {
    hide Skips;
    SkipsPlain(fields.lead, open, depth);
    SkipsQuoted(fields.key, open, depth);
    SkipsPlain(fields.mid, open, depth);
    SkipsPlain(":", open, depth);
    SkipsPlain(fields.gap, open, depth);
    SkipsConcat(fields.lead, Quoted(fields.key), open, depth);
    SkipsConcat(fields.lead + Quoted(fields.key), fields.mid, open, depth);
    SkipsConcat(fields.lead + Quoted(fields.key) + fields.mid, ":", open, depth);
    SkipsConcat(fields.lead + Quoted(fields.key) + fields.mid + ":", fields.gap, open, depth);
  }

  lemma {:induction false} SkipsFields(fields: Fields, open: char, depth: int)
    requires Bracket(open) && WfFields(fields) && depth >= 1
    ensures Skips(FieldsText(fields), open, depth)
    ensures Skips(FieldsTail(fields), open, depth)
    decreases fields
  {
    hide Skips;
    SkipsPlain("", open, depth);
    if fields.Field? {
      SkipsLabel(fields, open, depth);
      SkipsValue(fields.value, open, depth);
      SkipsPlain(fields.trail, open, depth);
      SkipsFields(fields.rest, open, depth);
      SkipsConcat(Label(fields), Text(fields.value), open, depth);
      SkipsConcat(Label(fields) + Text(fields.value), fields.trail, open, depth);
      SkipsConcat(Label(fields) + Text(fields.value) + fields.trail, FieldsTail(fields.rest), open, depth);
      SkipsPlain(",", open, depth);
      SkipsConcat(",", FieldsText(fields), open, depth);
    }
  }

  lemma {:induction false} StringEndOf(body: string, rest: string)
    requires StringBody(body)
    ensures StringEnd(body + "\"" + rest, false) == Some(|body| + 1)
  {
    var s := body + "\"" + rest;
    if body == "" {
      assert s[0] == '"';
    } else if body[0] == '\\' {
      StringEndOf(body[2..], rest);
      assert s[1..][1..] == body[2..] + "\"" + rest;
      assert StringEnd(s, false) == Shift(1, StringEnd(s[1..], true));
      assert StringEnd(s[1..], true) == Shift(1, StringEnd(s[1..][1..], false));
    } else {
      StringEndOf(body[1..], rest);
      assert s[1..] == body[1..] + "\"" + rest;
    }
  }

  lemma {:induction false} PlainEndOf(s: string, rest: string)
    requires forall i | 0 <= i < |s| :: !Delimiter(s[i])
    requires rest == "" || Delimiter(rest[0])
    ensures PlainEnd(s + rest) == |s|
  {
    if s == "" {
      assert s + rest == rest;
    } else {
      PlainEndOf(s[1..], rest);
      assert (s + rest)[1..] == s[1..] + rest;
    }
  }

  // How far the scanner takes the range of `v`: blanks after a number or word count as part of it.
  function Span(v: Json, trail: string): nat {
    |Text(v)| + if v.Scalar? then |trail| else 0
  }

  lemma BracketedEnd(a: string, open: char, rest: string)
    requires Bracket(open) && Skips(a, open, 1)
    ensures ValueEnd([open] + a + [Closer(open)] + rest) == Some(|a| + 2)
  {
    var tail := [Closer(open)] + rest;
    Associates([open] + a, [Closer(open)], rest);
    Associates([open], a, tail);
    hide NestEnd, Skips;
    NestOpens(a + tail, open, 0);
    SkipsUse(a, open, 1, tail);
    NestCloses(rest, open, 1);
    assert ([open] + (a + tail))[0] == open;
  }

  lemma ArrEndOf(pad: string, items: Items, more: string)
    requires Blank(pad) && WfItems(items)
    ensures ValueEnd(Text(Arr(pad, items)) + more) == Some(|Text(Arr(pad, items))|)
  {
    hide Skips, ValueEnd, ItemsText;
    SkipsItems(items, '[', 1);
    SkipsPlain(pad, '[', 1);
    SkipsConcat(pad, ItemsText(items), '[', 1);
    BracketedEnd(pad + ItemsText(items), '[', more);
  }

  lemma ObjEndOf(pad: string, fields: Fields, more: string)
    requires Blank(pad) && WfFields(fields)
    ensures ValueEnd(Text(Obj(pad, fields)) + more) == Some(|Text(Obj(pad, fields))|)
  {
    hide Skips, ValueEnd, FieldsText;
    SkipsFields(fields, '{', 1);
    SkipsPlain(pad, '{', 1);
    SkipsConcat(pad, FieldsText(fields), '{', 1);
    BracketedEnd(pad + FieldsText(fields), '{', more);
  }

  lemma StrEndOf(body: string, more: string)
    requires StringBody(body)
    ensures ValueEnd(Quoted(body) + more) == Some(|body| + 2)
  {
    hide StringEnd, StringBody;
    StringEndOf(body, more);
    var s := Quoted(body) + more;
    assert s[0] == '"' && s[1..] == body + "\"" + more;
  }

  lemma ScalarEndOf(text: string, trail: string, rest: string)
    requires Wf(Scalar(text)) && Blank(trail) && (rest == "" || Delimiter(rest[0]))
    ensures ValueEnd(text + trail + rest) == Some(|text| + |trail|)
  {
    PlainEndOf(text + trail, rest);
    assert ScalarChar((text + trail + rest)[0]);
  }

  // Main lemma of the scanners: the end of any rendered value is found exactly.
  lemma ValueEndOf(v: Json, trail: string, rest: string)
    requires Wf(v) && Blank(trail) && (rest == "" || Delimiter(rest[0]))
    ensures ValueEnd(Text(v) + trail + rest) == Some(Span(v, trail))
  {
    assert Text(v) + trail + rest == Text(v) + (trail + rest);
    match v
    case Scalar(text) => ScalarEndOf(text, trail, rest);
    case Str(body) => StrEndOf(body, trail + rest);
    case Arr(pad, items) => ArrEndOf(pad, items, trail + rest);
    case Obj(pad, fields) => ObjEndOf(pad, fields, trail + rest);
  }
}
