/** The text scanners of the floor plan handler: they find where a value or a member's value
    ends without parsing the document. */
module JsonScan {
  import opened Wrappers
  import opened JsonText

  function Shift(n: nat, r: Option<nat>): Option<nat> {
    match r
    case None => None
    case Some(k) => Some(n + k)
  }

  // The specification functions count the characters from the start of `s`.

  // `s` follows an opening quote.
  function StringEnd(s: string, escaped: bool): Option<nat> {
    if s == "" then None
    else if escaped then Shift(1, StringEnd(s[1..], false))
    else if s[0] == '\\' then Shift(1, StringEnd(s[1..], true))
    else if s[0] == '"' then Some(1)
    else Shift(1, StringEnd(s[1..], false))
  }

  function Closer(open: char): char {
    if open == '{' then '}' else ']'
  }

  function NestEnd(s: string, open: char, depth: int, inString: bool, escaped: bool): Option<nat> {
    if s == "" then None
    else if inString then
      Shift(1, NestEnd(s[1..], open, depth, escaped || s[0] != '"', !escaped && s[0] == '\\'))
    else if s[0] == '"' then Shift(1, NestEnd(s[1..], open, depth, true, escaped))
    else if s[0] == open then Shift(1, NestEnd(s[1..], open, depth + 1, false, escaped))
    else if s[0] == Closer(open) then
      if depth - 1 == 0 then Some(1) else Shift(1, NestEnd(s[1..], open, depth - 1, false, escaped))
    else Shift(1, NestEnd(s[1..], open, depth, false, escaped))
  }

  predicate Delimiter(c: char) {
    c == ',' || c == '}' || c == ']'
  }

  function PlainEnd(s: string): (n: nat)
    ensures n <= |s|
  {
    if s == "" || Delimiter(s[0]) then 0 else 1 + PlainEnd(s[1..])
  }

  function ValueEnd(s: string): (r: Option<nat>) {
    if s == "" then None
    else if s[0] == '"' then Shift(1, StringEnd(s[1..], false))
    else if s[0] == '{' || s[0] == '[' then NestEnd(s, s[0], 0, false, false)
    else if Delimiter(s[0]) then None
    else Some(PlainEnd(s))
  }

  function SkipWs(json: string, pos: nat): (r: nat)
    ensures r >= pos && (pos <= |json| ==> r <= |json|)
    decreases |json| - pos
  {
    if pos < |json| && IsWs(json[pos]) then SkipWs(json, pos + 1) else pos
  }

  lemma StringEndBound(s: string, escaped: bool)
    ensures StringEnd(s, escaped).Some? ==> 1 <= StringEnd(s, escaped).value <= |s|
  {
  }

  lemma NestEndBound(s: string, open: char, depth: int, inString: bool, escaped: bool)
    ensures var r := NestEnd(s, open, depth, inString, escaped); r.Some? ==> 1 <= r.value <= |s|
  {
  }

  lemma ValueEndBound(s: string)
    ensures ValueEnd(s).Some? ==> 1 <= ValueEnd(s).value <= |s|
  {
    if s != "" {
      StringEndBound(s[1..], false);
      NestEndBound(s, s[0], 0, false, false);
    }
  }

  datatype MemberAt = MemberAt(keyStart: nat, keyEnd: nat, from: nat, to: nat)

  // The member that starts at `pos`, if the text there has the shape of one.
  function ReadMember(json: string, pos: nat, end: nat): (r: Option<MemberAt>)
    requires end <= |json|
    ensures r.Some? ==> pos < r.value.keyStart <= r.value.keyEnd < r.value.from < r.value.to <= end
  {
    var p := SkipWs(json, pos);
    if p >= end || json[p] != '"' then None
    else
      StringEndBound(json[p + 1..end], false);
      match StringEnd(json[p + 1..end], false)
      case None => None
      case Some(k) =>
        var q := SkipWs(json, p + 1 + k);
        if q >= end || json[q] != ':' then None
        else
          var from := SkipWs(json, q + 1);
          if from >= end then None
          else
            ValueEndBound(json[from..end]);
            match ValueEnd(json[from..end])
            case None => None
            case Some(n) => Some(MemberAt(p + 1, p + k, from, from + n))
  }

  predicate KeyMatches(json: string, m: MemberAt, key: string) {
    m.keyStart <= m.keyEnd <= |json| && json[m.keyStart..m.keyEnd] == key
  }

  // The range of the value of the first member labelled `key` from `pos`.
  function FindMember(json: string, pos: nat, end: nat, key: string): (r: Option<(nat, nat)>)
    requires end <= |json|
    ensures r.Some? ==> pos < r.value.0 < r.value.1 <= end
    decreases if pos < end then end - pos else 0
  {
    match ReadMember(json, pos, end)
    case None => None
    case Some(m) =>
      if KeyMatches(json, m, key) then Some((m.from, m.to))
      else FindMember(json, AfterComma(json, m.to, end), end, key)
  }

  // Past white space and then at most one comma.
  function AfterComma(json: string, pos: nat, end: nat): (r: nat)
    requires pos <= end <= |json|
    ensures r >= pos
  {
    var p := SkipWs(json, pos);
    if p < end && json[p] == ',' then p + 1 else p
  }

  lemma FindMemberStep(json: string, pos: nat, end: nat, key: string)
    requires end <= |json|
    ensures match ReadMember(json, pos, end)
            case None => FindMember(json, pos, end, key) == None
            case Some(m) =>
              FindMember(json, pos, end, key) ==
              if KeyMatches(json, m, key) then Some((m.from, m.to))
              else FindMember(json, AfterComma(json, m.to, end), end, key)
  {
  }

  method ScanWs(json: string, start: nat) returns (pos: nat)
    ensures pos == SkipWs(json, start)
  {
    pos := start;
    while pos < |json| && IsWs(json[pos])
      invariant SkipWs(json, pos) == SkipWs(json, start)
    {
      pos := pos + 1;
    }
  }

  method ScanStringEnd(json: string, start: nat, end: nat) returns (found: bool, out: nat)
    requires end <= |json|
    ensures start >= end || json[start] != '"' ==> !found
    ensures start < end && json[start] == '"' ==>
              (if found then start + 1 <= out <= end else true) &&
              StringEnd(json[start + 1..end], false) == if found then Some(out - (start + 1)) else None
  {
    found, out := false, 0;
    if start >= end || json[start] != '"' { return; }
    var escaped := false;
    var i := start + 1;
    while i < end
      invariant start + 1 <= i <= end
      invariant StringEnd(json[start + 1..end], false) == Shift(i - (start + 1), StringEnd(json[i..end], escaped))
    {
      assert json[i..end][1..] == json[i + 1..end];
      if escaped {
        escaped := false;
      } else if json[i] == '\\' {
        escaped := true;
      } else if json[i] == '"' {
        return true, i + 1;
      }
      i := i + 1;
    }
  }

  method ScanValueEnd(json: string, start: nat, end: nat) returns (found: bool, out: nat)
    requires end <= |json|
    ensures start >= end ==> !found
    ensures start < end ==>
              (if found then start < out <= end else true) &&
              ValueEnd(json[start..end]) == if found then Some(out - start) else None
  {
    found, out := false, 0;
    if start >= end { return; }
    var first := json[start];
    ghost var value := json[start..end];
    assert value[1..] == json[start + 1..end];
    if first == '"' {
      found, out := ScanStringEnd(json, start, end);
      return;
    }
    if first == '{' || first == '[' {
      var close := if first == '{' then '}' else ']';
      var depth, inString, escaped := 0, false, false;
      var i := start;
      while i < end
        invariant start <= i <= end
        invariant !inString ==> !escaped
        invariant NestEnd(value, first, 0, false, false) ==
                  Shift(i - start, NestEnd(json[i..end], first, depth, inString, escaped))
      {
        assert json[i..end][1..] == json[i + 1..end];
        var c := json[i];
        if inString {
          if escaped {
            escaped := false;
          } else if c == '\\' {
            escaped := true;
          } else if c == '"' {
            inString := false;
          }
        } else if c == '"' {
          inString := true;
        } else if c == first {
          depth := depth + 1;
        } else if c == close {
          depth := depth - 1;
          if depth == 0 {
            return true, i + 1;
          }
        }
        i := i + 1;
      }
      return;
    }
    var pos := start;
    while pos < end && json[pos] != ',' && json[pos] != '}' && json[pos] != ']'
      invariant start <= pos <= end
      invariant PlainEnd(value) == pos - start + PlainEnd(json[pos..end])
    {
      assert json[pos..end][1..] == json[pos + 1..end];
      pos := pos + 1;
    }
    return pos > start, pos;
  }

  // One turn of the member loop: the key, the colon and the value at `start`.
  method ScanMember(json: string, start: nat, end: nat) returns (member: Option<MemberAt>)
    requires end <= |json|
    ensures member == ReadMember(json, start, end)
  {
    var pos := ScanWs(json, start);
    if pos >= end || json[pos] == '}' { return None; }
    if json[pos] != '"' { return None; }
    var ok, keyStringEnd := ScanStringEnd(json, pos, end);
    if !ok { return None; }
    var keyStart, keyEnd := pos + 1, keyStringEnd - 1;
    StringEndBound(json[pos + 1..end], false);
    pos := ScanWs(json, keyStringEnd);
    if pos >= end || json[pos] != ':' { return None; }
    var candidateStart := ScanWs(json, pos + 1);
    var candidateEnd;
    ok, candidateEnd := ScanValueEnd(json, candidateStart, end);
    if !ok { return None; }
    member := Some(MemberAt(keyStart, keyEnd, candidateStart, candidateEnd));
  }

  method ScanMemberRange(json: string, start: nat, end: nat, key: string)
    returns (found: bool, valueStart: nat, valueEnd: nat)
    requires end <= |json|
    ensures start >= end || json[start] != '{' ==> !found
    ensures found ==> start < valueStart < valueEnd <= end
    ensures start < end && json[start] == '{' ==>
              FindMember(json, start + 1, end, key) == if found then Some((valueStart, valueEnd)) else None
  {
    found, valueStart, valueEnd := false, 0, 0;
    if start >= end || json[start] != '{' { return; }
    hide *;
    ghost var goal := FindMember(json, start + 1, end, key);
    var pos := start + 1;
    while pos < end
      invariant pos > start
      invariant goal == FindMember(json, pos, end, key)
      decreases end - pos
    {
      var member := ScanMember(json, pos, end);
      FindMemberStep(json, pos, end, key);
      if member.None? { return; }
      var m := member.value;
      if KeyMatches(json, m, key) { return true, m.from, m.to; }
      pos := PassComma(json, m.to, end);
    }
  }

  method PassComma(json: string, start: nat, end: nat) returns (pos: nat)
    requires start <= end <= |json|
    ensures pos == AfterComma(json, start, end)
  {
    pos := ScanWs(json, start);
    if pos < end && json[pos] == ',' {
      pos := pos + 1;
    }
  }
}
