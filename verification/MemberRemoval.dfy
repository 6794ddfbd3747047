/** Cutting top-level members out of the raw text of a JSON object by byte span, as the effort migration does
    with retired profile keys (go/cmd/evolve/cli_routing_effort_migrate.go). */
module MemberRemoval {
  import opened Base
  import opened JsonText

  /** Where a member lies in the text: from its comma (the first member: from its key) to the end of its value. */
  datatype Span = Span(key: Bytes, start: nat, end: nat)

  /** The string that a quoted key means, given what stands between its quotes. */
  type Unquote = Bytes -> Bytes

  // ---------------------------------------------------------------- the spans of a text

  /** Reads the string at the start of `q`: what stands between its quotes, and what follows it. */
  function ReadKey(q: Bytes): (o: Option<(Bytes, Bytes)>)
    ensures o.Some? ==> |o.value.1| < |q|
  {
    if q == [] || q[0] != QUOTE then None
    else
      match ScanChars(q[1..])
      case None => None
      case Some(rest) => Some((q[1..|q| - |rest| - 1], rest))
  }

  /** Reads a colon and one value; the result is what follows the value. */
  function ReadValue(r: Bytes): (o: Option<Bytes>)
    ensures o.Some? ==> |o.value| < |r|
  {
    var s := SkipSpace(r);
    if s == [] || s[0] != COLON then None else ScanValue(SkipSpace(s[1..]), MAX_DEPTH)
  }

  function ReadMember(q: Bytes): (o: Option<(Bytes, Bytes)>)
    ensures o.Some? ==> |o.value.1| < |q|
  {
    match ReadKey(q)
    case None => None
    case Some((key, behindKey)) =>
      match ReadValue(behindKey)
      case None => None
      case Some(rest) => Some((key, rest))
  }

  predicate AtEnd(p: Bytes) { p == [] || p[0] == CLOSE_BRACE || p[0] == CLOSE_BRACKET }

  /** The spans of the members in `r`, the last part of a text of `size` bytes. The scan ends without an error
      at a closing brace, at a closing bracket and at the end of the text. */
  function SpansFrom(size: nat, r: Bytes, first: bool, unquote: Unquote): (o: Result<seq<Span>>)
    requires |r| <= size
    decreases |r|
  {
    var p := SkipSpace(r);
    if AtEnd(p) then Ok([])
    else if !first && p[0] != COMMA then Err
    else
      match ReadMember(if first then p else SkipSpace(p[1..]))
      case None => Err
      case Some((key, rest)) =>
        match SpansFrom(size, rest, false, unquote)
        case Err => Err
        case Ok(spans) => Ok([Span(unquote(key), size - |p|, size - |rest|)] + spans)
  }

  function Spans(raw: Bytes, unquote: Unquote): Result<seq<Span>> {
    var p := SkipSpace(raw);
    if p == [] || p[0] != OPEN_BRACE then Err else SpansFrom(|raw|, p[1..], true, unquote)
  }

  predicate Within(size: nat, s: Span) { s.start <= size && s.end <= size }

  lemma {:induction false} SpansFromWithin(size: nat, r: Bytes, first: bool, unquote: Unquote)
    requires |r| <= size
    ensures var o := SpansFrom(size, r, first, unquote);
      o.Ok? ==> forall i :: 0 <= i < |o.value| ==> Within(size, o.value[i])
    decreases |r|
  {
    hide ReadKey, ReadValue, ScanChars, ScanValue;
    if SpansFrom(size, r, first, unquote).Ok? {
      var p := SkipSpace(r);
      if !AtEnd(p) {
        var rest := ReadMember(if first then p else SkipSpace(p[1..])).value.1;
        SpansFromWithin(size, rest, false, unquote);
        var later := SpansFrom(size, rest, false, unquote).value;
        var spans := SpansFrom(size, r, first, unquote).value;
        assert spans[1..] == later;
        forall i | 0 <= i < |spans|
          ensures Within(size, spans[i])
        {
          assert i > 0 ==> Within(size, later[i - 1]);
        }
      }
    }
  }

  /** A span ends inside the text. */
  lemma SpansWithin(raw: Bytes, unquote: Unquote)
    ensures var o := Spans(raw, unquote);
      o.Ok? ==> forall i :: 0 <= i < |o.value| ==> Within(|raw|, o.value[i])
  {
    var p := SkipSpace(raw);
    if p != [] && p[0] == OPEN_BRACE {
      SpansFromWithin(|raw|, p[1..], true, unquote);
    }
  }

  // ---------------------------------------------------------------- the streaming decoder

  datatype DecoderState = AtTop | AtFirstKey | AtComma | AtColon

  /** The part of a streaming JSON decoder that the scan uses: `rest` is the input behind the read position. */
  class Decoder {
    const raw: Bytes
    var rest: Bytes
    var state: DecoderState

    constructor (raw: Bytes)
      ensures this.raw == raw && rest == raw && state == AtTop
    {
      this.raw := raw;
      rest := raw;
      state := AtTop;
    }

    function InputOffset(): int
      reads this
    {
      |raw| - |rest|
    }

    /** The token at the top: whether it opens an object. */
    method OpenObject() returns (ok: bool)
      requires state == AtTop
      modifies this
      ensures var p := SkipSpace(old(rest));
        && ok == (p != [] && p[0] == OPEN_BRACE)
        && (ok ==> rest == p[1..] && state == AtFirstKey)
    {
      rest := SkipSpace(rest);
      ok := rest != [] && rest[0] == OPEN_BRACE;
      if ok {
        rest := rest[1..];
        state := AtFirstKey;
      }
    }

    /** Whether another member follows. Looking ahead moves the position past the blanks. */
    method More() returns (more: bool)
      modifies this`rest
      ensures rest == SkipSpace(old(rest)) && more == !AtEnd(rest)
    {
      rest := SkipSpace(rest);
      more := !AtEnd(rest);
    }

    /** The token in front of a member's colon: behind the comma, if one is due, a string. */
    method Key() returns (key: Option<Bytes>)
      requires state == AtFirstKey || state == AtComma
      requires rest != []
      modifies this
      ensures
        var first := old(state) == AtFirstKey;
        var read := ReadKey(if first then old(rest) else SkipSpace(old(rest)[1..]));
        && key.Some? == ((first || old(rest)[0] == COMMA) && read.Some?)
        && (key.Some? ==> state == AtColon && read == Some((key.value, rest)))
    {
      if state == AtComma {
        if rest[0] != COMMA { return None; }
        rest := SkipSpace(rest[1..]);
      }
      match ReadKey(rest) {
        case None => return None;
        case Some((body, behind)) =>
          key := Some(body);
          rest := behind;
          state := AtColon;
      }
    }

    /** Decodes one value behind its colon. */
    method Value() returns (ok: bool)
      requires state == AtColon
      modifies this
      ensures ok == ReadValue(old(rest)).Some?
      ensures ok ==> state == AtComma && ReadValue(old(rest)) == Some(rest)
    {
      match ReadValue(rest) {
        case None => return false;
        case Some(behind) =>
          rest := behind;
          state := AtComma;
          ok := true;
      }
    }
  }

  function Prepend(done: seq<Span>, o: Result<seq<Span>>): Result<seq<Span>> {
    match o case Err => Err case Ok(spans) => Ok(done + spans)
  }

  /** Where the member scan stands: `done` holds the spans before `rest`. */
  ghost predicate ScanState(raw: Bytes, unquote: Unquote, done: seq<Span>, rest: Bytes) {
    && |rest| <= |raw| && SkipSpace(rest) == rest
    && Spans(raw, unquote) == Prepend(done, SpansFrom(|raw|, rest, done == [], unquote))
  }

  lemma SkipSpaceTwice(r: Bytes)
    ensures SkipSpace(SkipSpace(r)) == SkipSpace(r)
  {
  }

  lemma BlanksAside(size: nat, r: Bytes, first: bool, unquote: Unquote)
    requires |r| <= size
    ensures SpansFrom(size, SkipSpace(r), first, unquote) == SpansFrom(size, r, first, unquote)
  {
    SkipSpaceTwice(r);
    hide ReadMember, SkipSpace;
  }

  lemma ScanStarts(raw: Bytes, unquote: Unquote)
    requires SkipSpace(raw) != [] && SkipSpace(raw)[0] == OPEN_BRACE
    ensures ScanState(raw, unquote, [], SkipSpace(SkipSpace(raw)[1..]))
  {
    hide ReadKey, ReadValue, ScanChars, ScanValue;
    var whole := Spans(raw, unquote);
    assert whole.Ok? ==> [] + whole.value == whole.value;
  }

  lemma SpansFromStep(size: nat, rest: Bytes, first: bool, unquote: Unquote, key: Bytes, behind: Bytes)
    requires |rest| <= size && SkipSpace(rest) == rest && !AtEnd(rest) && (first || rest[0] == COMMA)
    requires ReadMember(if first then rest else SkipSpace(rest[1..])) == Some((key, behind))
    ensures |behind| < |rest|
    ensures SpansFrom(size, rest, first, unquote)
         == Prepend([Span(unquote(key), size - |rest|, size - |behind|)], SpansFrom(size, behind, false, unquote))
  {
    hide ReadMember, SkipSpace;
  }

  lemma ScanSteps(raw: Bytes, unquote: Unquote, done: seq<Span>, rest: Bytes, span: Span, behind: Bytes)
    requires ScanState(raw, unquote, done, rest) && !AtEnd(rest) && (done != [] ==> rest[0] == COMMA)
    requires |behind| <= |rest|
    requires SpansFrom(|raw|, rest, done == [], unquote) == Prepend([span], SpansFrom(|raw|, behind, false, unquote))
    ensures ScanState(raw, unquote, done + [span], SkipSpace(behind))
  {
    hide ReadMember, SkipSpace, SpansFrom, Spans, Prepend, AtEnd;
    SkipSpaceTwice(behind);
    BlanksAside(|raw|, behind, false, unquote);
    PrependTwice(done, [span], SpansFrom(|raw|, behind, false, unquote));
  }

  lemma PrependTwice(a: seq<Span>, b: seq<Span>, o: Result<seq<Span>>)
    ensures Prepend(a, Prepend(b, o)) == Prepend(a + b, o)
  {
    if o.Ok? {
      assert a + (b + o.value) == (a + b) + o.value;
    }
  }

  lemma ScanFails(raw: Bytes, unquote: Unquote, done: seq<Span>, rest: Bytes)
    requires ScanState(raw, unquote, done, rest) && !AtEnd(rest)
    requires (done != [] && rest[0] != COMMA) || ReadMember(if done == [] then rest else SkipSpace(rest[1..])).None?
    ensures Spans(raw, unquote).Err?
  {
    hide ReadKey, ReadValue, ScanChars, ScanValue;
  }

  lemma ScanEnds(raw: Bytes, unquote: Unquote, done: seq<Span>, rest: Bytes)
    requires ScanState(raw, unquote, done, rest) && AtEnd(rest)
    ensures Spans(raw, unquote) == Ok(done)
  {
    assert done + [] == done;
  }

  method TopLevelMembers(raw: Bytes, unquote: Unquote) returns (o: Result<seq<Span>>)
    ensures o == Spans(raw, unquote)
  {
    hide SpansFrom, Prepend, SkipSpace, ReadKey, ReadValue, ScanChars, ScanValue;
    var dec := new Decoder(raw);
    var isObject := dec.OpenObject();
    if !isObject { return Err; }
    ScanStarts(raw, unquote);
    var members: seq<Span> := [];
    var more := dec.More();
    while more
      invariant dec.raw == raw && fresh(dec)
      invariant dec.state == if members == [] then AtFirstKey else AtComma
      invariant more == !AtEnd(dec.rest)
      invariant ScanState(raw, unquote, members, dec.rest)
      decreases |dec.rest|
    {
      ghost var rest := dec.rest;
      var start := dec.InputOffset();
      var key := dec.Key();
      if key.None? {
        ScanFails(raw, unquote, members, rest);
        return Err;
      }
      var ok := dec.Value();
      if !ok {
        ScanFails(raw, unquote, members, rest);
        return Err;
      }
      var span := Span(unquote(key.value), start, dec.InputOffset());
      SpansFromStep(|raw|, rest, members == [], unquote, key.value, dec.rest);
      ScanSteps(raw, unquote, members, rest, span, dec.rest);
      members := members + [span];
      more := dec.More();
    }
    o := Ok(members);
    ScanEnds(raw, unquote, members, dec.rest);
  }

  // ---------------------------------------------------------------- the edit

  /** The first index of `c` in `s`, or -1. */
  function IndexByte(s: Bytes, c: byte): (i: int)
    ensures -1 <= i < |s|
  {
    if s == [] then -1
    else if s[0] == c then 0
    else var i := IndexByte(s[1..], c); if i < 0 then -1 else i + 1
  }

  function FirstWithKey(members: seq<Span>, key: Bytes): (i: int)
    ensures -1 <= i < |members|
  {
    if members == [] then -1
    else if members[0].key == key then 0
    else var i := FirstWithKey(members[1..], key); if i < 0 then -1 else i + 1
  }

  function Cut(raw: Bytes, start: nat, end: nat): Bytes
    requires start <= |raw| && end <= |raw|
  {
    raw[..start] + raw[end..]
  }

  function RemoveTopLevelKey(raw: Bytes, key: Bytes, unquote: Unquote): Result<Bytes> {
    match Spans(raw, unquote)
    case Err => Err
    case Ok(members) =>
      var i := FirstWithKey(members, key);
      SpansWithin(raw, unquote);
      if i < 0 then Ok(raw)
      else if i > 0 || |members| == 1 then Ok(Cut(raw, members[i].start, members[i].end))
      else
        var next := members[1].start;
        Ok(Cut(raw, members[0].start, next + IndexByte(raw[next..], COMMA) + 1))
  }

  /** Removing one key after the other. */
  function RemoveKeys(raw: Bytes, keys: seq<Bytes>, unquote: Unquote): Result<Bytes>
    decreases |keys|
  {
    if keys == [] then Ok(raw)
    else
      match RemoveTopLevelKey(raw, keys[0], unquote)
      case Err => Err
      case Ok(next) => RemoveKeys(next, keys[1..], unquote)
  }

  method RemoveTopLevelKeys(raw: Bytes, keys: seq<Bytes>, unquote: Unquote) returns (o: Result<Bytes>)
    ensures o == RemoveKeys(raw, keys, unquote)
  {
    var out := raw;
    for n := 0 to |keys|
      invariant RemoveKeys(raw, keys, unquote) == RemoveKeys(out, keys[n..], unquote)
    {
      var next := RemoveTopLevelKey(out, keys[n], unquote);
      assert keys[n..][1..] == keys[n + 1..];
      if next.Err? { return Err; }
      out := next.value;
    }
    o := Ok(out);
  }
}
