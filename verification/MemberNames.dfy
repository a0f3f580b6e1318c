/** Which member a lookup finds: the code compares the text of a member's name, this module relates that to
    the name the text denotes. */
module MemberNames {
  import opened Wrappers
  import opened JsonText
  import opened JsonLiteral
  import opened FloorplanPatch
  import opened FloorplanPatchProof

  // A name that needs no escapes, as all the names in the code.
  predicate Plain(name: string) {
    Escape(name) == name
  }

  predicate NamedBy(key: string, name: string) {
    Unescape(key) == Some(name)
  }

  // The members from the first one on whose name is the text.
  function SeekKey(fields: Fields, key: string): (r: Fields)
    ensures r.Field? ==> r.key == key
  {
    if fields.NoFields? || fields.key == key then fields else SeekKey(fields.rest, key)
  }

  // The members from the first one on whose name denotes the string, however it is spelled.
  function SeekName(fields: Fields, name: string): (r: Fields)
    ensures r.Field? ==> NamedBy(r.key, name)
  {
    if fields.NoFields? || NamedBy(fields.key, name) then fields else SeekName(fields.rest, name)
  }

  predicate HasNamed(fields: Fields, name: string) {
    SeekName(fields, name).Field?
  }

  function Named(fields: Fields, name: string): Json
    requires HasNamed(fields, name)
  {
    SeekName(fields, name).value
  }

  // Replace the value of the first member so named.
  function SetNamed(fields: Fields, name: string, w: Json): Fields
    requires HasNamed(fields, name)
  {
    if NamedBy(fields.key, name) then
      fields.(value := w, trail := if fields.value.Scalar? then "" else fields.trail)
    else fields.(rest := SetNamed(fields.rest, name, w))
  }

  // No member has the name, or the first that has it is written without escapes.
  predicate NameSpelled(fields: Fields, name: string) {
    HasNamed(fields, name) ==> SeekName(fields, name).key == name
  }

  // Every name was written by this program.
  ghost predicate NamesWritten(fields: Fields) {
    fields.Field? ==> (exists name: string :: fields.key == Escape(name)) && NamesWritten(fields.rest)
  }

  function Size(fields: Fields): nat {
    if fields.NoFields? then 0 else 1 + Size(fields.rest)
  }

  lemma {:induction false} SeekKeyShrinks(fields: Fields, key: string)
    ensures Size(SeekKey(fields, key)) <= Size(fields)
  {
    if fields.Field? && fields.key != key {
      SeekKeyShrinks(fields.rest, key);
    }
  }

  // Lower-case letters are their own spelling.
  lemma {:induction false} LettersArePlain(name: string)
    requires forall i | 0 <= i < |name| :: 'a' <= name[i] <= 'z'
    ensures Plain(name)
  {
    if name != "" {
      LettersArePlain(name[1..]);
      assert [name[0]] + name[1..] == name;
    }
  }

  lemma PlainDenotes(name: string)
    requires Plain(name)
    ensures NamedBy(name, name)
  {
    LiteralRoundTrip(name);
  }

  // Main result: the lookup finds the first member with the name exactly when that member's name is
  // written without escapes.
  lemma {:induction false} NameExactly(fields: Fields, name: string)
    requires Plain(name)
    ensures SeekKey(fields, name) == SeekName(fields, name) <==> NameSpelled(fields, name)
  {
    PlainDenotes(name);
    hide Plain, NamedBy;
    if fields.Field? {
      if NamedBy(fields.key, name) {
        SeekKeyShrinks(fields.rest, name);
      } else {
        NameExactly(fields.rest, name);
      }
    }
  }

  lemma {:induction false} KeyLookup(fields: Fields, key: string)
    ensures HasMember(fields, key) == SeekKey(fields, key).Field?
    ensures HasMember(fields, key) ==> Member(fields, key) == SeekKey(fields, key).value
  {
    if fields.Field? && fields.key != key {
      KeyLookup(fields.rest, key);
    }
  }

  // Then the lookup, the value found and its replacement are those of the name.
  lemma SpelledLookup(fields: Fields, name: string)
    requires Plain(name) && NameSpelled(fields, name)
    ensures HasMember(fields, name) == HasNamed(fields, name)
    ensures HasMember(fields, name) ==> Member(fields, name) == Named(fields, name)
  {
    NameExactly(fields, name);
    KeyLookup(fields, name);
  }

  lemma {:induction false} SpelledReplacement(fields: Fields, name: string, w: Json)
    requires Plain(name) && NameSpelled(fields, name) && HasMember(fields, name) && HasNamed(fields, name)
    ensures SetMember(fields, name, w) == SetNamed(fields, name, w)
  {
    PlainDenotes(name);
    hide Plain, NamedBy;
    if !NamedBy(fields.key, name) {
      SpelledReplacement(fields.rest, name, w);
    }
  }

  lemma {:induction false} WrittenNames(fields: Fields, name: string)
    requires NamesWritten(fields) && Plain(name)
    ensures NameSpelled(fields, name)
  {
    if fields.Field? {
      if NamedBy(fields.key, name) {
        var written: string :| fields.key == Escape(written);
        LiteralRoundTrip(written);
      } else {
        WrittenNames(fields.rest, name);
      }
    }
  }

  // Main result: in a document whose first member with the name is written without escapes, and so in
  // every document whose names this program wrote, a patch replaces the member that has the name.
  lemma PatchMemberNamed(before: string, pad: string, fields: Fields, after: string, name: string, w: Json)
    requires Blank(before) && Blank(after) && Wf(Obj(pad, fields))
    requires Plain(name) && NameSpelled(fields, name)
    ensures PatchedMember(before + Text(Obj(pad, fields)) + after, name, Text(w)) ==
            if HasNamed(fields, name)
            then Some(before + Text(Obj(pad, SetNamed(fields, name, w))) + after) else None
  {
    hide PatchedMember, Text, Wf, Plain, NameSpelled, HasMember, HasNamed;
    PatchMemberCommutes(before, pad, fields, after, name, w);
    SpelledLookup(fields, name);
    if HasMember(fields, name) {
      SpelledReplacement(fields, name, w);
    }
  }

  // A member whose name is written otherwise is missed when no later one is written without escapes.
  lemma PatchMemberMisses(before: string, pad: string, fields: Fields, after: string, name: string, w: Json)
    requires Blank(before) && Blank(after) && Wf(Obj(pad, fields)) && Plain(name)
    ensures HasNamed(fields, name) && PatchedMember(before + Text(Obj(pad, fields)) + after, name, Text(w)) == None <==>
            !NameSpelled(fields, name) && !HasMember(SeekName(fields, name).rest, name)
  {
    PatchMemberCommutes(before, pad, fields, after, name, w);
    PlainDenotes(name);
    NameBeforeKey(fields, name);
    hide PatchedMember, Text, Wf, Plain, NamedBy;
  }

  lemma {:induction false} NameBeforeKey(fields: Fields, name: string)
    requires NamedBy(name, name)
    ensures HasMember(fields, name) <==> HasNamed(fields, name) && HasMember(SeekName(fields, name), name)
  {
    if fields.Field? && !NamedBy(fields.key, name) {
      NameBeforeKey(fields.rest, name);
    }
  }
}
