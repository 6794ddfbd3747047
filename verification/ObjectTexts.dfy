/** Object texts of section 4 of RFC 8259 and the edit on them: what MemberRemovalProofs says of a list of members
    holds of every object text, because the two are the same texts. */
module ObjectTexts {
  import opened Base
  import opened JsonText
  import opened JsonTextProofs
  import opened MemberRemoval
  import opened MemberRemovalProofs

  /** One object with blanks around it. The nesting limit holds for each member's value on its own. */
  ghost predicate IsObjectText(t: Bytes) {
    exists pad: Bytes, v: Value, after: Bytes ::
      AllSpace(pad) && AllSpace(after) && v.Object? && Valid(v, MAX_DEPTH + 1) && t == pad + Write(v, after)
  }

  /** The members that the fields of an object are; `before` stands in front of the first one's comma. */
  function MembersOf(fs: Fields, before: Bytes): seq<Member> {
    match fs
    case NoFields => []
    case Field(lead, key, gap, pad, item, after, more) =>
      [Member(before, lead, key, gap, pad, Render(item))] + MembersOf(more, after)
  }

  /** The blanks behind the last value. */
  function LastBlanks(fs: Fields, before: Bytes): Bytes {
    match fs
    case NoFields => before
    case Field(_, _, _, _, _, after, more) => LastBlanks(more, after)
  }

  /** Behind a value: the rest of the fields, or nothing more. */
  function WriteMore(fs: Fields, before: Bytes, r: Bytes): Bytes {
    before + (if fs.NoFields? then r else [COMMA] + WriteFields(fs, r))
  }

  lemma FieldsFirst(fs: Fields, before: Bytes, r: Bytes)
    requires fs.Field?
    ensures WriteFields(fs, r)
         == WriteMember(Member(before, fs.before, fs.key, fs.gap, fs.lead, Render(fs.item)), WriteMore(fs.more, fs.after, r))
  {
    WriteIsRender(fs.item, WriteMore(fs.more, fs.after, r));
  }

  lemma {:induction false} FieldsAsMembers(fs: Fields, before: Bytes, r: Bytes)
    ensures WriteMore(fs, before, r) == WriteRest(MembersOf(fs, before), LastBlanks(fs, before) + r)
  {
    if fs.Field? {
      FieldsFirst(fs, before, r);
      FieldsAsMembers(fs.more, fs.after, r);
      var ms := MembersOf(fs, before);
      assert ms[1..] == MembersOf(fs.more, fs.after);
      hide WriteMember, WriteFields, Render;
    }
  }

  lemma {:induction false} MembersAreGood(fs: Fields, before: Bytes)
    requires ValidFields(fs, MAX_DEPTH) && AllSpace(before)
    ensures GoodMembers(MembersOf(fs, before)) && AllSpace(LastBlanks(fs, before))
  {
    if fs.Field? {
      MembersAreGood(fs.more, fs.after);
      assert IsValueText(Render(fs.item));
    }
  }

  /** The document that an object text is. */
  function DocOf(pad: Bytes, v: Value, after: Bytes): Doc
    requires v.Object?
  {
    var end := [CLOSE_BRACE] + after;
    Doc(pad, MembersOf(v.fields, []), (if v.fields.NoFields? then v.pad else LastBlanks(v.fields, [])) + end)
  }

  lemma DocOfText(pad: Bytes, v: Value, after: Bytes)
    requires v.Object?
    ensures DocText(DocOf(pad, v, after)) == pad + Write(v, after)
  {
    var end := [CLOSE_BRACE] + after;
    var fs := v.fields;
    if fs.Field? {
      FieldsFirst(fs, [], end);
      FieldsAsMembers(fs.more, fs.after, end);
      assert MembersOf(fs, [])[1..] == MembersOf(fs.more, fs.after);
    }
  }

  lemma DocOfGood(pad: Bytes, v: Value, after: Bytes)
    requires AllSpace(pad) && AllSpace(after) && v.Object? && Valid(v, MAX_DEPTH + 1)
    ensures Good(DocOf(pad, v, after)) && IsWholeObject(DocOf(pad, v, after))
  {
    var end := [CLOSE_BRACE] + after;
    var last := if v.fields.NoFields? then v.pad else LastBlanks(v.fields, []);
    MembersAreGood(v.fields, []);
    SkipSpacePad(last, end);
    assert SkipSpace(end) == end && end[1..] == after;
  }

  /** The fields that a list of members is. */
  lemma {:induction false} FieldsFound(ms: seq<Member>, last: Bytes) returns (fs: Fields)
    requires ms != [] && GoodMembers(ms) && AllSpace(last)
    ensures fs.Field? && ValidFields(fs, MAX_DEPTH)
    ensures MembersOf(fs, ms[0].before) == ms && LastBlanks(fs, ms[0].before) == last
  {
    var m := ms[0];
    assert GoodMember(m);
    var v :| Valid(v, MAX_DEPTH) && Render(v) == m.value;
    if |ms| == 1 {
      fs := Field(m.lead, m.key, m.gap, m.pad, v, last, NoFields);
      assert MembersOf(fs, m.before) == [m];
    } else {
      assert GoodMember(ms[1]);
      var more := FieldsFound(ms[1..], last);
      fs := Field(m.lead, m.key, m.gap, m.pad, v, ms[1].before, more);
      assert ms == [m] + ms[1..];
    }
  }

  lemma ObjectFound(doc: Doc) returns (v: Value, after: Bytes)
    requires Good(doc) && IsWholeObject(doc)
    ensures v.Object? && Valid(v, MAX_DEPTH + 1) && AllSpace(after) && DocOf(doc.pad, v, after) == doc
  {
    var last;
    last, after := TailFound(doc.tail);
    if doc.members == [] {
      v := Object(last, NoFields);
      assert DocOf(doc.pad, v, after).members == [];
    } else {
      hide IsWholeObject, Closing, SkipSpace, GoodMember, MembersOf, LastBlanks;
      var fs := FieldsFound(doc.members, last);
      v := Object([], fs);
    }
  }

  lemma TailFound(tail: Bytes) returns (last: Bytes, after: Bytes)
    requires var p := SkipSpace(tail); p != [] && p[0] == CLOSE_BRACE && AllSpace(p[1..])
    ensures AllSpace(last) && AllSpace(after) && tail == last + ([CLOSE_BRACE] + after)
  {
    last := SkipSpaceSplit(tail);
    var end := SkipSpace(tail);
    after := end[1..];
    assert end == [CLOSE_BRACE] + after;
  }

  /** The object texts are the texts of whole documents. */
  lemma ObjectTextsAreDocs(t: Bytes)
    ensures IsObjectText(t) <==> exists doc :: Good(doc) && IsWholeObject(doc) && DocText(doc) == t
  {
    if IsObjectText(t) {
      var pad: Bytes, v: Value, after: Bytes :|
        AllSpace(pad) && AllSpace(after) && v.Object? && Valid(v, MAX_DEPTH + 1) && t == pad + Write(v, after);
      DocOfText(pad, v, after);
      DocOfGood(pad, v, after);
    }
    if doc :| Good(doc) && IsWholeObject(doc) && DocText(doc) == t {
      var v, after := ObjectFound(doc);
      DocOfText(doc.pad, v, after);
      assert AllSpace(doc.pad);
    }
  }

  /** Removing keys from an object text never fails and leaves an object text. However the text is read as a list of
      members, the result is the text of the list without those keys; and with each of the keys at most once in the list,
      the members that remain are those of other keys, in their order, with every byte of theirs. */
  lemma RemovalFromObjectText(t: Bytes, keys: seq<Bytes>, unquote: Unquote)
    requires IsObjectText(t)
    ensures RemoveKeys(t, keys, unquote).Ok? && IsObjectText(RemoveKeys(t, keys, unquote).value)
    ensures forall doc :: Good(doc) && DocText(doc) == t ==>
      && Good(Without(doc, keys, unquote)) && DocText(Without(doc, keys, unquote)) == RemoveKeys(t, keys, unquote).value
      && (AtMostOnce(Keys(doc.members, unquote), keys) ==>
            Entries(Without(doc, keys, unquote).members, unquote) == Filter(Entries(doc.members, unquote), NotIn(keys)))
  {
    hide Good, IsWholeObject, IsObjectText, DocText, Without, RemoveKeys, AtMostOnce, Entries, Keys, NotIn, Filter;
    ObjectTextsAreDocs(t);
    var whole :| Good(whole) && IsWholeObject(whole) && DocText(whole) == t;
    RemoveKeysText(whole, keys, unquote);
    ObjectTextsAreDocs(DocText(Without(whole, keys, unquote)));
    forall doc | Good(doc) && DocText(doc) == t
      ensures Good(Without(doc, keys, unquote)) && DocText(Without(doc, keys, unquote)) == RemoveKeys(t, keys, unquote).value
      ensures AtMostOnce(Keys(doc.members, unquote), keys) ==>
        Entries(Without(doc, keys, unquote).members, unquote) == Filter(Entries(doc.members, unquote), NotIn(keys))
    {
      RemoveKeysText(doc, keys, unquote);
      if AtMostOnce(Keys(doc.members, unquote), keys) {
        RemoveKeysKeepsTheRest(doc, keys, unquote);
      }
    }
  }

  // ---------------------------------------------------------------- texts, byte by byte

  /** What may close a list of members: blanks, and then the end of the text, a closing brace or a closing bracket. */
  lemma ClosingMeans(tail: Bytes)
    ensures Closing(tail) <==> exists w: Bytes, r: Bytes ::
      tail == w + r && (forall i :: 0 <= i < |w| ==> w[i] in {9, 10, 13, 32}) && (r == [] || r[0] == 125 || r[0] == 93)
  {
    if Closing(tail) {
      var w := SkipSpaceSplit(tail);
      assert tail == w + SkipSpace(tail);
    }
    if w: Bytes, r: Bytes :|
      tail == w + r && (forall i :: 0 <= i < |w| ==> w[i] in {9, 10, 13, 32}) && (r == [] || r[0] == 125 || r[0] == 93)
    {
      SkipSpaceStop(w, r);
    }
  }

  predicate Blank(w: Bytes) { forall i :: 0 <= i < |w| ==> w[i] in {9, 10, 13, 32} }

  /** An object of one member with any blanks between its tokens: the removal of its key takes the member from the
      opening quote to the end of the value and leaves the braces and the blanks around it. */
  lemma RemovesOnlyMember(a: Bytes, b: Bytes, key: Bytes, c: Bytes, d: Bytes, value: Bytes, e: Bytes, f: Bytes, unquote: Unquote)
    requires Blank(a) && Blank(b) && Blank(c) && Blank(d) && Blank(e) && Blank(f)
    requires IsStringBody(key) && IsValueText(value)
    ensures var t := a + ([123] + (b + ([34] + (key + ([34] + (c + ([58] + (d + (value + (e + ([125] + f)))))))))));
      && IsObjectText(t)
      && RemoveKeys(t, [unquote(key)], unquote) == Ok(a + ([123] + (b + (e + ([125] + f)))))
  {
    var m := Member([], b, key, c, d, value);
    var doc := Doc(a, [m], e + ([125] + f));
    OneMemberGood(doc, m, e, f);
    OneMemberText(doc, m);
    OneMemberGone(doc, m, unquote);
    hide Good, IsWholeObject, RemoveKeys, DocText, IsObjectText, Without;
    ObjectTextsAreDocs(DocText(doc));
    RemoveKeysText(doc, [unquote(key)], unquote);
  }

  lemma OneMemberGood(doc: Doc, m: Member, e: Bytes, f: Bytes)
    requires doc.members == [m] && doc.tail == e + ([125] + f) && AllSpace(doc.pad) && AllSpace(e) && AllSpace(f)
    requires m.before == [] && GoodMember(m)
    ensures Good(doc) && IsWholeObject(doc)
  {
    var end := [125] + f;
    SkipSpaceStop(e, end);
    assert end[1..] == f;
  }

  lemma OneMemberText(doc: Doc, m: Member)
    requires doc.members == [m]
    ensures DocText(doc) ==
      doc.pad + ([123] + (m.lead + ([34] + (m.key + ([34] + (m.gap + ([58] + (m.pad + (m.value + doc.tail)))))))))
  {
    assert [m][1..] == [];
  }

  lemma OneMemberGone(doc: Doc, m: Member, unquote: Unquote)
    requires doc.members == [m]
    ensures Without(doc, [unquote(m.key)], unquote) == Doc(doc.pad, [], m.lead + doc.tail)
    ensures DocText(Doc(doc.pad, [], m.lead + doc.tail)) == doc.pad + ([123] + (m.lead + doc.tail))
  {
    hide WriteKey;
    assert Keys([m], unquote) == [unquote(m.key)];
    assert [unquote(m.key)][1..] == [];
  }

  /** The key `a` goes out of an object that is printed over three lines. */
  lemma RemovalOverLines(unquote: Unquote)
    requires unquote([97]) == [97]
    ensures RemoveKeys([123, 10, 34, 97, 34, 58, 49, 10, 125], [[97]], unquote) == Ok([123, 10, 10, 125])
  {
    var key: Bytes := [97];
    ShortTexts(key);
    hide IsStringBody, IsValueText, IsObjectText, RemoveKeys;
    RemovesOnlyMember([], [10], key, [], [], [49], [10], [], unquote);
    TextOverLines([], key);
  }

  lemma TextOverLines(none: Bytes, key: Bytes)
    requires none == [] && key == [97]
    ensures none + ([123] + ([10] + ([34] + (key + ([34] + (none + ([58] + (none + ([49] + ([10] + ([125] + none)))))))))))
         == [123, 10, 34, 97, 34, 58, 49, 10, 125]
    ensures none + ([123] + ([10] + ([10] + ([125] + none)))) == [123, 10, 10, 125]
  {
    var value := [49] + ([10] + ([125] + none));
    assert value == [49, 10, 125];
    var colon := none + ([58] + (none + value));
    assert colon == [58, 49, 10, 125];
    var quoted := [34] + (key + ([34] + colon));
    assert quoted == [34, 97, 34, 58, 49, 10, 125];
    assert none + ([123] + ([10] + quoted)) == [123, 10, 34, 97, 34, 58, 49, 10, 125];
  }

  lemma ShortTexts(key: Bytes)
    requires key == [97]
    ensures IsStringBody(key) && IsValueText([49])
  {
    assert key[1..] == [];
    var one := Number(false, [49], [], []);
    assert Render(one) == [49] && Valid(one, 10000);
  }
}
