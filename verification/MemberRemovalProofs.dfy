/** What member removal means: on a decomposition of the text into members it deletes exactly one member and
    leaves the bytes of every other member alone. */
module MemberRemovalProofs {
  import opened Base
  import opened JsonText
  import opened JsonTextProofs
  import opened MemberRemoval

  // ---------------------------------------------------------------- the text as a list of members

  /** `before` stands in front of the member's comma (nothing, for the first member), `lead` in front of its
      key, `gap` and `pad` around its colon. */
  datatype Member = Member(before: Bytes, lead: Bytes, key: Bytes, gap: Bytes, pad: Bytes, value: Bytes)

  /** `tail` is everything behind the last value, or behind the opening brace when there is no member. */
  datatype Doc = Doc(pad: Bytes, members: seq<Member>, tail: Bytes)

  /** The bytes of a member from the opening quote of its key to the end of its value. */
  function Core(m: Member): Bytes { WriteKey(m.key, m.gap, m.pad, m.value) }

  function WriteMember(m: Member, r: Bytes): (t: Bytes)
    ensures |t| >= |r|
  {
    m.lead + WriteKey(m.key, m.gap, m.pad, m.value + r)
  }

  function WriteRest(ms: seq<Member>, r: Bytes): (t: Bytes)
    ensures |t| >= |r|
  {
    if ms == [] then r else ms[0].before + ([COMMA] + WriteMember(ms[0], WriteRest(ms[1..], r)))
  }

  function WriteMembers(ms: seq<Member>, r: Bytes): Bytes {
    if ms == [] then r else WriteMember(ms[0], WriteRest(ms[1..], r))
  }

  function DocText(doc: Doc): Bytes { doc.pad + ([OPEN_BRACE] + WriteMembers(doc.members, doc.tail)) }

  ghost predicate GoodMember(m: Member) {
    && AllSpace(m.before) && AllSpace(m.lead) && IsStringBody(m.key) && AllSpace(m.gap) && AllSpace(m.pad)
    && IsValueText(m.value)
  }

  ghost predicate GoodMembers(ms: seq<Member>) { forall m :: m in ms ==> GoodMember(m) }

  /** The text ends, or a closing brace or bracket is the next byte that is no blank. */
  predicate Closing(tail: Bytes) { AtEnd(SkipSpace(tail)) }

  ghost predicate Good(doc: Doc) {
    && AllSpace(doc.pad) && GoodMembers(doc.members) && Closing(doc.tail)
    && (doc.members != [] ==> doc.members[0].before == [])
  }

  /** A whole object text: nothing but blanks around the closing brace. */
  predicate IsWholeObject(doc: Doc) {
    var p := SkipSpace(doc.tail);
    p != [] && p[0] == CLOSE_BRACE && AllSpace(p[1..])
  }

  /** The document without its member `i`, blanks joined the way the edit leaves them. */
  function RemoveAt(doc: Doc, i: nat): Doc
    requires i < |doc.members|
  {
    var ms := doc.members;
    var m := ms[i];
    if i == 0 then
      if |ms| == 1 then Doc(doc.pad, [], m.lead + doc.tail)
      else Doc(doc.pad, [ms[1].(before := [], lead := m.lead + ms[1].lead)] + ms[2..], doc.tail)
    else if i + 1 == |ms| then Doc(doc.pad, ms[..i], m.before + doc.tail)
    else Doc(doc.pad, ms[..i] + [ms[i + 1].(before := m.before + ms[i + 1].before)] + ms[i + 2..], doc.tail)
  }

  function Keys(ms: seq<Member>, unquote: Unquote): seq<Bytes> { Map((m: Member) => unquote(m.key), ms) }

  /** What a reader of the object sees: each member's key, and its bytes. */
  datatype Entry = Entry(key: Bytes, core: Bytes)

  function Entries(ms: seq<Member>, unquote: Unquote): seq<Entry> {
    Map((m: Member) => Entry(unquote(m.key), Core(m)), ms)
  }

  /** Removing a member removes its bytes and leaves those of every other member, in order. */
  lemma RemoveAtEntries(doc: Doc, i: nat, unquote: Unquote)
    requires i < |doc.members|
    ensures var es := Entries(doc.members, unquote);
      Entries(RemoveAt(doc, i).members, unquote) == es[..i] + es[i + 1..]
    ensures var ks := Keys(doc.members, unquote);
      Keys(RemoveAt(doc, i).members, unquote) == ks[..i] + ks[i + 1..]
  {
    var ms, rest := doc.members, RemoveAt(doc, i).members;
    forall j | 0 <= j < |rest|
      ensures |rest| == |ms| - 1 && Core(rest[j]) == Core(ms[if j < i then j else j + 1]) && rest[j].key == ms[if j < i then j else j + 1].key
    {
      RemoveAtMember(doc, i, j);
    }
    assert |rest| == |ms| - 1 by {
      hide WriteKey;
    }
    hide RemoveAt, Core;
    SkipsOne(Keys(rest, unquote), Keys(ms, unquote), i);
    SkipsOne(Entries(rest, unquote), Entries(ms, unquote), i);
  }

  lemma SkipsOne<T>(a: seq<T>, b: seq<T>, i: nat)
    requires i < |b| && |a| == |b| - 1 && forall j :: 0 <= j < |a| ==> a[j] == b[if j < i then j else j + 1]
    ensures a == b[..i] + b[i + 1..]
  {
  }

  lemma RemoveAtMember(doc: Doc, i: nat, j: nat)
    requires i < |doc.members| && j < |doc.members| - 1
    ensures var ms, rest := doc.members, RemoveAt(doc, i).members;
      var k := if j < i then j else j + 1;
      |rest| == |ms| - 1 && Core(rest[j]) == Core(ms[k]) && rest[j].key == ms[k].key
  {
    hide WriteKey;
  }

  lemma RemoveAtGood(doc: Doc, i: nat)
    requires Good(doc) && i < |doc.members|
    ensures Good(RemoveAt(doc, i))
    ensures IsWholeObject(doc) ==> IsWholeObject(RemoveAt(doc, i))
  {
    hide IsValueText, IsStringBody;
    var ms := doc.members;
    assert GoodMember(ms[i]);
    SkipSpacePad(ms[i].lead, doc.tail);
    SkipSpacePad(ms[i].before, doc.tail);
    forall m | m in RemoveAt(doc, i).members
      ensures GoodMember(m)
    {
      if m !in ms {
        assert GoodMember(ms[i + 1]);
      }
    }
  }

  // ---------------------------------------------------------------- continuations

  lemma WriteMemberAppend(m: Member, a: Bytes, b: Bytes)
    ensures WriteMember(m, a + b) == WriteMember(m, a) + b
  {
    Regroup(m.value, a, b);
    WriteKeyAppend(m.key, m.gap, m.pad, m.value + a, b);
    Regroup(m.lead, WriteKey(m.key, m.gap, m.pad, m.value + a), b);
  }

  lemma {:induction false} WriteRestAppend(ms: seq<Member>, a: Bytes, b: Bytes)
    ensures WriteRest(ms, a + b) == WriteRest(ms, a) + b
  {
    if ms != [] {
      var rest := WriteRest(ms[1..], a);
      WriteRestAppend(ms[1..], a, b);
      WriteMemberAppend(ms[0], rest, b);
      Regroup([COMMA], WriteMember(ms[0], rest), b);
      Regroup(ms[0].before, [COMMA] + WriteMember(ms[0], rest), b);
    }
  }

  lemma {:induction false} WriteRestJoin(a: seq<Member>, b: seq<Member>, r: Bytes)
    ensures WriteRest(a + b, r) == WriteRest(a, WriteRest(b, r))
  {
    if a == [] {
      assert a + b == b;
    } else {
      assert (a + b)[1..] == a[1..] + b;
      WriteRestJoin(a[1..], b, r);
    }
  }

  // ---------------------------------------------------------------- the scan finds the members

  /** The spans of members that stand in front of `r` in a text of `size` bytes. */
  function RestSpans(size: int, ms: seq<Member>, r: Bytes, unquote: Unquote): seq<Span>
    requires |WriteRest(ms, r)| <= size
  {
    if ms == [] then []
    else
      var behind := WriteRest(ms[1..], r);
      [Span(unquote(ms[0].key), size - |[COMMA] + WriteMember(ms[0], behind)|, size - |behind|)]
      + RestSpans(size, ms[1..], r, unquote)
  }

  function DocSpans(doc: Doc, unquote: Unquote): seq<Span> {
    var size := |DocText(doc)|;
    if doc.members == [] then []
    else
      var m := doc.members[0];
      var behind := WriteRest(doc.members[1..], doc.tail);
      [Span(unquote(m.key), size - |WriteKey(m.key, m.gap, m.pad, m.value + behind)|, size - |behind|)]
      + RestSpans(size, doc.members[1..], doc.tail, unquote)
  }

  lemma ClosingDelimits(r: Bytes)
    requires Closing(r)
    ensures Delimited(r)
  {
  }

  lemma RestDelimits(ms: seq<Member>, r: Bytes)
    requires GoodMembers(ms) && Closing(r)
    ensures Delimited(WriteRest(ms, r))
  {
    if ms == [] {
      ClosingDelimits(r);
    } else {
      assert GoodMember(ms[0]);
      var comma := [COMMA] + WriteMember(ms[0], WriteRest(ms[1..], r));
      assert ms[0].before == [] ==> WriteRest(ms, r) == comma;
    }
  }

  /** Key, colon and value of a good member are read as such. */
  lemma ScanMember(m: Member, behind: Bytes)
    requires GoodMember(m) && Delimited(behind)
    ensures var q := WriteKey(m.key, m.gap, m.pad, m.value + behind);
      SkipSpace(WriteMember(m, behind)) == q && !AtEnd(q) && ReadMember(q) == Some((m.key, behind))
  {
    hide ScanValue, Write, Valid;
    var q := WriteKey(m.key, m.gap, m.pad, m.value + behind);
    var v :| Valid(v, MAX_DEPTH) && Render(v) == m.value;
    WriteIsRender(v, behind);
    FirstByte(v, MAX_DEPTH, behind);
    ScanValueComplete(v, MAX_DEPTH, behind);
    SkipSpaceStop(m.lead, q);
    var colon := [COLON] + (m.pad + (m.value + behind));
    assert q[1..] == m.key + ([QUOTE] + (m.gap + colon));
    ScanCharsComplete(m.key, m.gap + colon);
    assert q[1..|m.key| + 1] == m.key;
    SkipSpaceStop(m.gap, colon);
    assert colon[1..] == m.pad + (m.value + behind);
    SkipSpaceStop(m.pad, m.value + behind);
  }

  lemma {:induction false} RestSpansFound(size: nat, ms: seq<Member>, r: Bytes, unquote: Unquote)
    requires GoodMembers(ms) && Closing(r) && |WriteRest(ms, r)| <= size
    ensures SpansFrom(size, WriteRest(ms, r), false, unquote) == Ok(RestSpans(size, ms, r, unquote))
  {
    hide ReadMember, WriteKey, WriteMember, Delimited;
    if ms != [] {
      hide SkipSpace, GoodMember;
      var m, behind := ms[0], WriteRest(ms[1..], r);
      assert GoodMember(m);
      RestDelimits(ms[1..], r);
      RestSpansFound(size, ms[1..], r, unquote);
      RestMember(size, m, behind, unquote);
    }
  }

  /** One member behind its comma. */
  lemma RestMember(size: nat, m: Member, behind: Bytes, unquote: Unquote)
    requires GoodMember(m) && Delimited(behind)
    requires var comma := [COMMA] + WriteMember(m, behind); |m.before + comma| <= size
    ensures var comma := [COMMA] + WriteMember(m, behind);
      SpansFrom(size, m.before + comma, false, unquote)
        == Prepend([Span(unquote(m.key), size - |comma|, size - |behind|)], SpansFrom(size, behind, false, unquote))
  {
    var comma := [COMMA] + WriteMember(m, behind);
    ScanMember(m, behind);
    SkipSpaceStop(m.before, comma);
    assert comma[1..] == WriteMember(m, behind);
    SkipSpaceTwice(m.before + comma);
    hide ReadMember, WriteKey, WriteMember, SpansFrom, SkipSpace, GoodMember;
    BlanksAside(size, m.before + comma, false, unquote);
    SpansFromStep(size, comma, false, unquote, m.key, behind);
  }

  lemma SpansBehindBrace(pad: Bytes, r: Bytes, unquote: Unquote)
    requires AllSpace(pad)
    ensures var raw := pad + ([OPEN_BRACE] + r);
      |r| <= |raw| && Spans(raw, unquote) == SpansFrom(|raw|, r, true, unquote)
  {
    hide SpansFrom;
    var brace := [OPEN_BRACE] + r;
    SkipSpaceStop(pad, brace);
    assert brace[1..] == r;
  }

  lemma FirstSpanFound(size: nat, m: Member, behind: Bytes, unquote: Unquote)
    requires GoodMember(m) && Delimited(behind) && |WriteMember(m, behind)| <= size
    ensures SpansFrom(size, WriteMember(m, behind), true, unquote)
         == Prepend([Span(unquote(m.key), size - |WriteKey(m.key, m.gap, m.pad, m.value + behind)|, size - |behind|)],
                    SpansFrom(size, behind, false, unquote))
  {
    var r := WriteMember(m, behind);
    ScanMember(m, behind);
    hide ReadMember, WriteKey, WriteMember, SpansFrom, GoodMember, Delimited;
    SkipSpaceTwice(r);
    BlanksAside(size, r, true, unquote);
    SpansFromStep(size, SkipSpace(r), true, unquote, m.key, behind);
  }

  lemma DocSpansFound(doc: Doc, unquote: Unquote)
    requires Good(doc)
    ensures Spans(DocText(doc), unquote) == Ok(DocSpans(doc, unquote))
  {
    hide ReadMember, Spans, GoodMember;
    SpansBehindBrace(doc.pad, WriteMembers(doc.members, doc.tail), unquote);
    if doc.members != [] {
      hide WriteMember, WriteRest, SpansFrom, RestSpans, SkipSpace;
      var size, m, more := |DocText(doc)|, doc.members[0], doc.members[1..];
      assert GoodMember(m);
      RestDelimits(more, doc.tail);
      FirstSpanFound(size, m, WriteRest(more, doc.tail), unquote);
      RestSpansFound(size, more, doc.tail, unquote);
    }
  }

  /** Whatever the scan accepts is a list of good members behind an opening brace. */
  lemma {:induction false} RestSpansSound(size: nat, r: Bytes, unquote: Unquote) returns (ms: seq<Member>, tail: Bytes)
    requires |r| <= size && SpansFrom(size, r, false, unquote).Ok?
    ensures GoodMembers(ms) && Closing(tail) && r == WriteRest(ms, tail)
    decreases |r|
  {
    var p := SkipSpace(r);
    if AtEnd(p) {
      ms, tail := [], r;
    } else {
      var before := SkipSpaceSplit(r);
      HeadTail(p);
      var m, rest := MemberSound(p[1..]);
      var more, end := RestSpansSound(size, rest, unquote);
      ms, tail := [m.(before := before)] + more, end;
      assert ms[1..] == more;
    }
  }

  lemma MemberSound(r: Bytes) returns (m: Member, rest: Bytes)
    requires ReadMember(SkipSpace(r)).Some?
    ensures GoodMember(m) && m.before == []
    ensures rest == ReadMember(SkipSpace(r)).value.1
    ensures r == WriteMember(m, rest)
  {
    var q := SkipSpace(r);
    var lead := SkipSpaceSplit(r);
    var behindKey := ReadKey(q).value.1;
    var s := SkipSpace(behindKey);
    var v := ScanValueSound(SkipSpace(s[1..]), MAX_DEPTH);
    rest := ReadValue(behindKey).value;
    WriteIsRender(v, rest);
    var key, gap, pad := ScanKeySound(q);
    m := Member([], lead, key, gap, pad, Render(v));
  }

  /** The scan succeeds on a text exactly when the text is a list of good members behind an opening brace. */
  lemma SpansSound(raw: Bytes, unquote: Unquote) returns (doc: Doc)
    requires Spans(raw, unquote).Ok?
    ensures Good(doc) && DocText(doc) == raw
  {
    var p := SkipSpace(raw);
    var pad := SkipSpaceSplit(raw);
    HeadTail(p);
    var r := p[1..];
    var q := SkipSpace(r);
    if AtEnd(q) {
      doc := Doc(pad, [], r);
    } else {
      var m, rest := MemberSound(r);
      var more, end := RestSpansSound(|raw|, rest, unquote);
      doc := Doc(pad, [m] + more, end);
      assert doc.members[1..] == more;
    }
  }

  // ---------------------------------------------------------------- the cut

  lemma CutBetween(front: Bytes, cut: Bytes, back: Bytes)
    ensures var raw := front + (cut + back);
      Cut(raw, |raw| - |cut + back|, |raw| - |back|) == front + back
  {
    var raw := front + (cut + back);
    assert raw[..|front|] == front;
    assert raw[|front| + |cut|..] == back;
  }

  lemma {:induction false} FirstWithKeyIs(spans: seq<Span>, key: Bytes, i: nat)
    requires i < |spans| && spans[i].key == key && forall j :: 0 <= j < i ==> spans[j].key != key
    ensures FirstWithKey(spans, key) == i
  {
    if i > 0 {
      assert spans[0].key != key;
      forall j | 0 <= j < i - 1
        ensures spans[1..][j].key != key
      {
        assert spans[1..][j] == spans[j + 1];
      }
      FirstWithKeyIs(spans[1..], key, i - 1);
    }
  }

  lemma {:induction false} FirstWithKeyAbsent(spans: seq<Span>, key: Bytes)
    requires forall j :: 0 <= j < |spans| ==> spans[j].key != key
    ensures FirstWithKey(spans, key) == -1
  {
    if spans != [] {
      forall j | 0 <= j < |spans| - 1
        ensures spans[1..][j].key != key
      {
        assert spans[1..][j] == spans[j + 1];
      }
      FirstWithKeyAbsent(spans[1..], key);
    }
  }

  lemma {:induction false} RestSpansCount(size: int, ms: seq<Member>, r: Bytes, unquote: Unquote)
    requires |WriteRest(ms, r)| <= size
    ensures |RestSpans(size, ms, r, unquote)| == |ms|
  {
    hide WriteMember;
    if ms != [] {
      RestSpansCount(size, ms[1..], r, unquote);
    }
  }

  lemma {:induction false} RestSpansAt(size: int, ms: seq<Member>, r: Bytes, unquote: Unquote, i: nat)
    requires |WriteRest(ms, r)| <= size && i < |ms|
    ensures var spans, behind := RestSpans(size, ms, r, unquote), WriteRest(ms[i + 1..], r);
      && |spans| == |ms|
      && |[COMMA] + WriteMember(ms[i], behind)| <= size
      && spans[i] == Span(unquote(ms[i].key), size - |[COMMA] + WriteMember(ms[i], behind)|, size - |behind|)
  {
    hide WriteMember;
    RestSpansCount(size, ms, r, unquote);
    if i > 0 {
      var more := ms[1..];
      RestSpansAt(size, more, r, unquote, i - 1);
      assert more[i - 1] == ms[i] && more[i..] == ms[i + 1..];
    }
  }

  /** The span of member `i`. */
  lemma DocSpansAt(doc: Doc, unquote: Unquote, i: nat)
    requires i < |doc.members|
    ensures var spans, m, behind := DocSpans(doc, unquote), doc.members[i], WriteRest(doc.members[i + 1..], doc.tail);
      var start := if i == 0 then WriteKey(m.key, m.gap, m.pad, m.value + behind) else [COMMA] + WriteMember(m, behind);
      && |spans| == |doc.members|
      && |start| <= |DocText(doc)|
      && spans[i] == Span(unquote(m.key), |DocText(doc)| - |start|, |DocText(doc)| - |behind|)
  {
    hide WriteKey;
    var size, more := |DocText(doc)|, doc.members[1..];
    RestSpansCount(size, more, doc.tail, unquote);
    if i > 0 {
      RestSpansAt(size, more, doc.tail, unquote, i - 1);
      assert more[i - 1] == doc.members[i] && more[i..] == doc.members[i + 1..];
    }
  }

  lemma SpanKeys(doc: Doc, unquote: Unquote)
    ensures var spans := DocSpans(doc, unquote);
      |spans| == |doc.members| && forall i :: 0 <= i < |spans| ==> spans[i].key == Keys(doc.members, unquote)[i]
  {
    forall i | 0 <= i < |doc.members|
      ensures |DocSpans(doc, unquote)| == |doc.members| && DocSpans(doc, unquote)[i].key == unquote(doc.members[i].key)
    {
      DocSpansAt(doc, unquote, i);
    }
  }

  // ---------------------------------------------------------------- removing one member

  /** Everything in front of member `i`, first key or comma included neither. */
  function FrontOf(doc: Doc, i: nat): Bytes
    requires i < |doc.members|
  {
    var ms := doc.members;
    doc.pad + ([OPEN_BRACE] + (if i == 0 then ms[0].lead else WriteMember(ms[0], WriteRest(ms[1..i], ms[i].before))))
  }

  /** A text that goes on with `x` where member `i` stood. */
  lemma FrontThen(doc: Doc, i: nat, x: Bytes)
    requires i < |doc.members|
    ensures var ms := doc.members;
      FrontOf(doc, i) + x
      == doc.pad + ([OPEN_BRACE] + (if i == 0 then ms[0].lead + x
                                    else WriteMember(ms[0], WriteRest(ms[1..i], ms[i].before + x))))
  {
    hide WriteMember, WriteRest;
    var ms := doc.members;
    if i == 0 {
      Regroup([OPEN_BRACE], ms[0].lead, x);
      Regroup(doc.pad, [OPEN_BRACE] + ms[0].lead, x);
    } else {
      var rest := WriteRest(ms[1..i], ms[i].before);
      WriteRestAppend(ms[1..i], ms[i].before, x);
      WriteMemberAppend(ms[0], rest, x);
      Regroup([OPEN_BRACE], WriteMember(ms[0], rest), x);
      Regroup(doc.pad, [OPEN_BRACE] + WriteMember(ms[0], rest), x);
    }
  }

  /** The bytes of member `i`, its comma included unless it is the first one. */
  function SpanText(doc: Doc, i: nat): Bytes
    requires i < |doc.members|
  {
    var m := doc.members[i];
    if i == 0 then Core(m) else [COMMA] + (m.lead + Core(m))
  }

  lemma SpanTextThen(doc: Doc, i: nat, x: Bytes)
    requires i < |doc.members|
    ensures var m := doc.members[i];
      SpanText(doc, i) + x == if i == 0 then WriteKey(m.key, m.gap, m.pad, m.value + x) else [COMMA] + WriteMember(m, x)
  {
    hide WriteKey;
    var m := doc.members[i];
    WriteKeyAppend(m.key, m.gap, m.pad, m.value, x);
    Regroup(m.lead, Core(m), x);
    Regroup([COMMA], m.lead + Core(m), x);
  }

  lemma RestAt(ms: seq<Member>, tail: Bytes, i: nat)
    requires 0 < i < |ms|
    ensures WriteRest(ms[1..], tail)
         == WriteRest(ms[1..i], ms[i].before + ([COMMA] + WriteMember(ms[i], WriteRest(ms[i + 1..], tail))))
  {
    hide WriteMember;
    assert ms[1..] == ms[1..i] + ms[i..];
    WriteRestJoin(ms[1..i], ms[i..], tail);
    assert ms[i..][1..] == ms[i + 1..];
  }

  lemma TextAround(doc: Doc, i: nat)
    requires i < |doc.members|
    ensures DocText(doc) == FrontOf(doc, i) + (SpanText(doc, i) + WriteRest(doc.members[i + 1..], doc.tail))
  {
    var ms, behind := doc.members, WriteRest(doc.members[i + 1..], doc.tail);
    SpanTextThen(doc, i, behind);
    if i > 0 {
      RestAt(ms, doc.tail, i);
    }
    hide WriteKey, WriteRest, FrontOf, SpanText;
    FrontThen(doc, i, SpanText(doc, i) + behind);
  }

  lemma JoinBefore(before: Bytes, ms: seq<Member>, tail: Bytes)
    requires ms != []
    ensures WriteRest([ms[0].(before := before + ms[0].before)] + ms[1..], tail) == before + WriteRest(ms, tail)
  {
    hide WriteMember;
    var joined := [ms[0].(before := before + ms[0].before)] + ms[1..];
    assert joined[1..] == ms[1..];
    SameMember(ms[0], joined[0], WriteRest(ms[1..], tail));
    Regroup(before, ms[0].before, [COMMA] + WriteMember(ms[0], WriteRest(ms[1..], tail)));
  }

  lemma SameMember(m: Member, n: Member, r: Bytes)
    requires n == m.(before := n.before)
    ensures WriteMember(m, r) == WriteMember(n, r)
  {
  }

  /** Behind a comma the list goes on with the next member. */
  lemma TextWithout(doc: Doc, i: nat)
    requires i < |doc.members| && (i > 0 || |doc.members| == 1)
    ensures DocText(RemoveAt(doc, i)) == FrontOf(doc, i) + WriteRest(doc.members[i + 1..], doc.tail)
  {
    hide WriteMember, WriteKey;
    var ms, rest, later := doc.members, RemoveAt(doc, i), doc.members[i + 1..];
    var behind := WriteRest(later, doc.tail);
    FrontThen(doc, i, behind);
    if i > 0 {
      var joined := rest.members[i..];
      assert rest.members[1..] == ms[1..i] + joined;
      WriteRestJoin(ms[1..i], joined, rest.tail);
      if later != [] {
        JoinBefore(ms[i].before, later, doc.tail);
        assert joined == [later[0].(before := ms[i].before + later[0].before)] + later[1..];
      }
    }
  }

  lemma TextWithoutFirst(doc: Doc)
    requires |doc.members| > 1
    ensures DocText(RemoveAt(doc, 0)) == FrontOf(doc, 0) + WriteMember(doc.members[1], WriteRest(doc.members[2..], doc.tail))
  {
    hide WriteKey;
    var next, behind := doc.members[1], WriteRest(doc.members[2..], doc.tail);
    FrontThen(doc, 0, WriteMember(next, behind));
    Regroup(doc.members[0].lead, next.lead, WriteKey(next.key, next.gap, next.pad, next.value + behind));
    assert RemoveAt(doc, 0).members[1..] == doc.members[2..];
  }

  predicate FirstAt(keys: seq<Bytes>, key: Bytes, i: nat) {
    i < |keys| && keys[i] == key && forall j :: 0 <= j < i ==> keys[j] != key
  }

  /** Cutting a span out of the text leaves another text. */
  predicate CutLeaves(raw: Bytes, span: Span, left: Bytes) {
    span.start <= |raw| && span.end <= |raw| && Cut(raw, span.start, span.end) == left
  }

  lemma CutMember(doc: Doc, unquote: Unquote, i: nat)
    requires i < |doc.members| && (i > 0 || |doc.members| == 1)
    ensures var spans := DocSpans(doc, unquote);
      |spans| == |doc.members| && CutLeaves(DocText(doc), spans[i], DocText(RemoveAt(doc, i)))
  {
    hide WriteMember, WriteKey, WriteRest, DocText, DocSpans, FrontOf, SpanText, RemoveAt, CutLeaves;
    var behind := WriteRest(doc.members[i + 1..], doc.tail);
    DocSpansAt(doc, unquote, i);
    TextAround(doc, i);
    SpanTextThen(doc, i, behind);
    TextWithout(doc, i);
    CutSpan(FrontOf(doc, i), SpanText(doc, i), behind, DocSpans(doc, unquote)[i]);
  }

  lemma CutSpan(front: Bytes, own: Bytes, behind: Bytes, span: Span)
    requires var raw := front + (own + behind); span.start == |raw| - |own + behind| && span.end == |raw| - |behind|
    ensures CutLeaves(front + (own + behind), span, front + behind)
  {
    hide Cut;
    CutBetween(front, own, behind);
  }

  lemma CutFirstOfMany(doc: Doc, unquote: Unquote)
    requires |doc.members| > 1
    ensures var raw, spans := DocText(doc), DocSpans(doc, unquote);
      && |spans| == |doc.members| && spans[0].start <= |raw| && spans[1].start <= |raw|
      && Cut(raw, spans[0].start, spans[1].start + IndexByte(raw[spans[1].start..], COMMA) + 1) == DocText(RemoveAt(doc, 0))
  {
    hide WriteMember, WriteKey, WriteRest, DocText, DocSpans, FrontOf, SpanText, RemoveAt, IndexByte, Cut;
    var next, front, own := doc.members[1], FrontOf(doc, 0), SpanText(doc, 0);
    var member := WriteMember(next, WriteRest(doc.members[2..], doc.tail));
    var comma := [COMMA] + member;
    DocSpansAt(doc, unquote, 0);
    DocSpansAt(doc, unquote, 1);
    TextAround(doc, 0);
    SpanTextThen(doc, 0, WriteRest(doc.members[1..], doc.tail));
    RestHead(doc.members, doc.tail);
    TextWithoutFirst(doc);
    CutBehindComma(front, own, next.before, member);
  }

  lemma RestHead(ms: seq<Member>, tail: Bytes)
    requires |ms| > 1
    ensures WriteRest(ms[1..], tail) == ms[1].before + ([COMMA] + WriteMember(ms[1], WriteRest(ms[2..], tail)))
  {
    assert ms[1..][1..] == ms[2..];
  }

  /** The comma behind the first member is the first byte of the second member's span. */
  lemma CutBehindComma(front: Bytes, own: Bytes, blanks: Bytes, member: Bytes)
    ensures var comma := [COMMA] + member;
      var raw := front + (own + (blanks + comma));
      var next := |raw| - |comma|;
      Cut(raw, |raw| - |own + (blanks + comma)|, next + IndexByte(raw[next..], COMMA) + 1) == front + member
  {
    var comma := [COMMA] + member;
    var raw := front + (own + (blanks + comma));
    assert raw[|raw| - |comma|..] == comma;
    assert raw[|raw| - |member|..] == member;
    assert raw[..|front|] == front;
  }

  /** Removing a key cuts exactly its first member out of the text: the result is the text of the document
      without that member. */
  lemma RemovesOneMember(doc: Doc, key: Bytes, unquote: Unquote, i: nat)
    requires Good(doc) && FirstAt(Keys(doc.members, unquote), key, i)
    ensures RemoveTopLevelKey(DocText(doc), key, unquote) == Ok(DocText(RemoveAt(doc, i)))
  {
    hide DocText, DocSpans, Spans, Good, IndexByte, FirstWithKey, Cut, RemoveAt;
    DocSpansFound(doc, unquote);
    SpanKeys(doc, unquote);
    FirstWithKeyIs(DocSpans(doc, unquote), key, i);
    if i > 0 || |doc.members| == 1 {
      CutMember(doc, unquote, i);
    } else {
      CutFirstOfMany(doc, unquote);
    }
  }

  lemma RemovesNothing(doc: Doc, key: Bytes, unquote: Unquote)
    requires Good(doc) && key !in Keys(doc.members, unquote)
    ensures RemoveTopLevelKey(DocText(doc), key, unquote) == Ok(DocText(doc))
  {
    DocSpansFound(doc, unquote);
    SpanKeys(doc, unquote);
    hide DocText, DocSpans, Spans;
    FirstWithKeyAbsent(DocSpans(doc, unquote), key);
  }

  // ---------------------------------------------------------------- any text, any keys

  /** The member scan accepts a text exactly when it is a list of members behind an opening brace. It does not
      look at the closing brace. */
  lemma AcceptedTexts(raw: Bytes, unquote: Unquote)
    ensures Spans(raw, unquote).Ok? <==> exists doc :: Good(doc) && DocText(doc) == raw
  {
    if Spans(raw, unquote).Ok? {
      var doc := SpansSound(raw, unquote);
    }
    if doc :| Good(doc) && DocText(doc) == raw {
      DocSpansFound(doc, unquote);
    }
  }

  function FirstIndex(ks: seq<Bytes>, key: Bytes): (i: nat)
    requires key in ks
    ensures FirstAt(ks, key, i)
  {
    if ks[0] == key then 0
    else
      assert ks == [ks[0]] + ks[1..];
      var i := FirstIndex(ks[1..], key);
      assert forall j :: 0 < j < i + 1 ==> ks[j] == ks[1..][j - 1];
      i + 1
  }

  /** The document after the removal of each key in turn. */
  function Without(doc: Doc, keys: seq<Bytes>, unquote: Unquote): Doc
    decreases |keys|
  {
    if keys == [] then doc
    else
      var ks := Keys(doc.members, unquote);
      Without(if keys[0] in ks then RemoveAt(doc, FirstIndex(ks, keys[0])) else doc, keys[1..], unquote)
  }

  /** The edit of the text is the removal of members from the document. */
  lemma {:induction false} RemoveKeysText(doc: Doc, keys: seq<Bytes>, unquote: Unquote)
    requires Good(doc)
    ensures var rest := Without(doc, keys, unquote);
      && Good(rest)
      && RemoveKeys(DocText(doc), keys, unquote) == Ok(DocText(rest))
      && (IsWholeObject(doc) ==> IsWholeObject(rest))
    decreases |keys|
  {
    hide DocText, Good, RemoveTopLevelKey, IsWholeObject, RemoveAt;
    if keys != [] {
      var ks := Keys(doc.members, unquote);
      if keys[0] in ks {
        var i := FirstIndex(ks, keys[0]);
        RemovesOneMember(doc, keys[0], unquote, i);
        RemoveAtGood(doc, i);
        RemoveKeysText(RemoveAt(doc, i), keys[1..], unquote);
      } else {
        RemovesNothing(doc, keys[0], unquote);
        RemoveKeysText(doc, keys[1..], unquote);
      }
    }
  }

  /** Each name in the list removes one member of that name, if one is left: a key is gone afterwards exactly
      when the object held it at most as often as the list names it. */
  lemma {:induction false} RemoveKeysCounts(doc: Doc, keys: seq<Bytes>, unquote: Unquote)
    ensures multiset(Keys(Without(doc, keys, unquote).members, unquote))
         == multiset(Keys(doc.members, unquote)) - multiset(keys)
    decreases |keys|
  {
    if keys != [] {
      hide RemoveAt, Keys;
      var ks, later := Keys(doc.members, unquote), keys[1..];
      if keys[0] in ks {
        var i := FirstIndex(ks, keys[0]);
        assert Without(doc, keys, unquote) == Without(RemoveAt(doc, i), later, unquote);
        hide Without, FirstIndex;
        RemoveAtEntries(doc, i, unquote);
        RemoveKeysCounts(RemoveAt(doc, i), later, unquote);
        CountOneKey(ks, i, keys);
      } else {
        assert Without(doc, keys, unquote) == Without(doc, later, unquote);
        hide Without, FirstIndex;
        RemoveKeysCounts(doc, later, unquote);
        CountNoKey(ks, keys);
      }
    }
  }

  lemma CountOneKey(ks: seq<Bytes>, i: nat, keys: seq<Bytes>)
    requires i < |ks| && keys != [] && ks[i] == keys[0]
    ensures multiset(ks[..i] + ks[i + 1..]) - multiset(keys[1..]) == multiset(ks) - multiset(keys)
  {
    assert keys == [keys[0]] + keys[1..];
    assert ks == ks[..i] + [ks[i]] + ks[i + 1..];
  }

  lemma CountNoKey(ks: seq<Bytes>, keys: seq<Bytes>)
    requires keys != [] && keys[0] !in ks
    ensures multiset(ks) - multiset(keys[1..]) == multiset(ks) - multiset(keys)
  {
    assert keys == [keys[0]] + keys[1..];
    assert keys[0] !in multiset(ks);
  }

  lemma {:induction false} FilterAll<T>(s: seq<T>, keep: T -> bool)
    requires forall i :: 0 <= i < |s| ==> keep(s[i])
    ensures Filter(s, keep) == s
  {
    if s != [] {
      FilterAll(s[1..], keep);
    }
  }

  lemma FilterOne(es: seq<Entry>, i: nat, keep: Entry -> bool)
    requires i < |es| && !keep(es[i]) && forall j :: 0 <= j < |es| && j != i ==> keep(es[j])
    ensures Filter(es, keep) == es[..i] + es[i + 1..]
  {
    var front, back := es[..i], es[i..];
    FilterAll(front, keep);
    FilterAll(es[i + 1..], keep);
    FilterDrops(back, keep);
    hide Filter;
    assert es == front + back && back[1..] == es[i + 1..];
    FilterAppend(front, back, keep);
  }

  lemma FilterDrops(s: seq<Entry>, keep: Entry -> bool)
    requires s != [] && !keep(s[0])
    ensures Filter(s, keep) == Filter(s[1..], keep)
  {
  }

  lemma {:induction false} FilterTwice<T>(s: seq<T>, p: T -> bool, q: T -> bool, both: T -> bool)
    requires forall x :: x in s ==> both(x) == (p(x) && q(x))
    ensures Filter(Filter(s, p), q) == Filter(s, both)
  {
    if s != [] {
      assert s[0] in s;
      FilterTwice(s[1..], p, q, both);
    }
  }

  /** No key of the list occurs twice in the object. */
  predicate AtMostOnce(ks: seq<Bytes>, keys: seq<Bytes>) {
    forall k :: k in keys ==> multiset(ks)[k] <= 1
  }

  function NotIn(keys: seq<Bytes>): Entry -> bool { (e: Entry) => e.key !in keys }

  lemma OnlyOccurrence(ks: seq<Bytes>, i: nat)
    requires i < |ks| && multiset(ks)[ks[i]] <= 1
    ensures forall j :: 0 <= j < |ks| && j != i ==> ks[j] != ks[i]
  {
    var front, back := ks[..i], ks[i + 1..];
    assert ks == front + [ks[i]] + back;
    assert ks[i] !in multiset(front) && ks[i] !in multiset(back);
    forall j | 0 <= j < |ks| && j != i
      ensures ks[j] != ks[i]
    {
      assert if j < i then ks[j] == front[j] else ks[j] == back[j - i - 1];
    }
  }

  lemma RemoveOneKeepsTheRest(doc: Doc, key: Bytes, unquote: Unquote)
    requires AtMostOnce(Keys(doc.members, unquote), [key])
    ensures var next := Without(doc, [key], unquote);
      Entries(next.members, unquote) == Filter(Entries(doc.members, unquote), NotIn([key]))
  {
    hide RemoveAt, Core;
    var es, ks := Entries(doc.members, unquote), Keys(doc.members, unquote);
    if key in ks {
      var i := FirstIndex(ks, key);
      RemoveAtEntries(doc, i, unquote);
      assert key in [key];
      OnlyOccurrence(ks, i);
      FilterOne(es, i, NotIn([key]));
      assert Without(doc, [key], unquote) == RemoveAt(doc, i);
    } else {
      FilterAll(es, NotIn([key]));
      assert Without(doc, [key], unquote) == doc;
    }
  }

  /** When no listed key repeats in the object, exactly the members whose key is in the list are gone; the
      others keep their order and their bytes. */
  lemma {:induction false} RemoveKeysKeepsTheRest(doc: Doc, keys: seq<Bytes>, unquote: Unquote)
    requires AtMostOnce(Keys(doc.members, unquote), keys)
    ensures Entries(Without(doc, keys, unquote).members, unquote)
         == Filter(Entries(doc.members, unquote), NotIn(keys))
    decreases |keys|
  {
    hide RemoveAt, Core;
    var es := Entries(doc.members, unquote);
    if keys == [] {
      FilterAll(es, NotIn(keys));
    } else {
      var later, next := keys[1..], Without(doc, keys[..1], unquote);
      assert keys[..1] == [keys[0]];
      RemoveOneKeepsTheRest(doc, keys[0], unquote);
      RemoveKeysCounts(doc, [keys[0]], unquote);
      RemoveKeysKeepsTheRest(next, later, unquote);
      assert Without(doc, keys, unquote) == Without(next, later, unquote);
      FilterTwice(es, NotIn([keys[0]]), NotIn(later), NotIn(keys));
    }
  }

  /** The members that remain do not depend on the order in which the keys are removed. */
  lemma RemoveKeysAnyOrder(doc: Doc, keys: seq<Bytes>, other: seq<Bytes>, unquote: Unquote)
    requires AtMostOnce(Keys(doc.members, unquote), keys) && (forall k :: k in keys <==> k in other)
    ensures Entries(Without(doc, keys, unquote).members, unquote) == Entries(Without(doc, other, unquote).members, unquote)
  {
    RemoveKeysKeepsTheRest(doc, keys, unquote);
    RemoveKeysKeepsTheRest(doc, other, unquote);
    FilterSame(Entries(doc.members, unquote), NotIn(keys), NotIn(other));
  }

  lemma {:induction false} FilterSame<T>(s: seq<T>, p: T -> bool, q: T -> bool)
    requires forall x :: x in s ==> p(x) == q(x)
    ensures Filter(s, p) == Filter(s, q)
  {
    if s != [] {
      assert s[0] in s;
      FilterSame(s[1..], p, q);
    }
  }
}
