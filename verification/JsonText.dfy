/** JSON texts as trees (sections 2, 4, 5 and 7 of RFC 8259).  The trees keep the white space
    and the raw text of every string, so each grammatical text is the rendering of some tree. */
module JsonText {

  datatype Json =
    | Scalar(text: string)             // a number or one of true, false, null
    | Str(body: string)                // the raw text between the quotes
    | Arr(pad: string, items: Items)
    | Obj(pad: string, fields: Fields)

  datatype Items =
    | NoItems
    | Item(lead: string, value: Json, trail: string, rest: Items)

  datatype Fields =
    | NoFields
    | Field(lead: string, key: string, mid: string, gap: string, value: Json, trail: string, rest: Fields)

  predicate IsWs(c: char) {
    c == ' ' || c == '\n' || c == '\r' || c == '\t'
  }

  predicate Blank(s: string) {
    forall i | 0 <= i < |s| :: IsWs(s[i])
  }

  // A string body: every quote is escaped and no escape is cut off at the end.
  predicate StringBody(s: string) {
    if s == "" then true
    else if s[0] == '\\' then |s| >= 2 && StringBody(s[2..])
    else s[0] != '"' && StringBody(s[1..])
  }

  predicate ScalarChar(c: char) {
    !IsWs(c) && c != ',' && c != '"' && c != '{' && c != '}' && c != '[' && c != ']'
  }

  predicate Wf(v: Json) {
    match v
    case Scalar(text) => text != "" && forall i | 0 <= i < |text| :: ScalarChar(text[i])
    case Str(body) => StringBody(body)
    case Arr(pad, items) => Blank(pad) && WfItems(items)
    case Obj(pad, fields) => Blank(pad) && WfFields(fields)
  }

  predicate WfItems(items: Items) {
    match items
    case NoItems => true
    case Item(lead, value, trail, rest) => Blank(lead) && Wf(value) && Blank(trail) && WfItems(rest)
  }

  predicate WfFields(fields: Fields) {
    match fields
    case NoFields => true
    case Field(lead, key, mid, gap, value, trail, rest) =>
      Blank(lead) && StringBody(key) && Blank(mid) && Blank(gap) && Wf(value) && Blank(trail) && WfFields(rest)
  }

  function Quoted(body: string): string {
    "\"" + body + "\""
  }

  function Text(v: Json): string {
    match v
    case Scalar(text) => text
    case Str(body) => Quoted(body)
    case Arr(pad, items) => "[" + (pad + ItemsText(items)) + "]"
    case Obj(pad, fields) => "{" + (pad + FieldsText(fields)) + "}"
  }

  function ItemsText(items: Items): string
    decreases items, 0
  {
    match items
    case NoItems => ""
    case Item(lead, value, trail, rest) => lead + Text(value) + trail + ItemsTail(rest)
  }

  // Later items follow a comma.
  function ItemsTail(items: Items): string
    decreases items, 1
  {
    if items.NoItems? then "" else "," + ItemsText(items)
  }

  // A member up to its value.
  function Label(fields: Fields): string
    requires fields.Field?
  {
    fields.lead + Quoted(fields.key) + fields.mid + ":" + fields.gap
  }

  function FieldsText(fields: Fields): string
    decreases fields, 0
  {
    match fields
    case NoFields => ""
    case Field(_, _, _, _, value, trail, rest) => Label(fields) + Text(value) + trail + FieldsTail(rest)
  }

  function FieldsTail(fields: Fields): string
    decreases fields, 1
  {
    if fields.NoFields? then "" else "," + FieldsText(fields)
  }
}
