/** The scanner reads exactly the grammar: what it accepts is the text of a value (soundness), and on the
    text of any value it stops right behind that value (completeness). */
module JsonTextProofs {
  import opened Base
  import opened JsonText

  // ---------------------------------------------------------------- blanks and digits

  lemma {:induction false} SkipSpacePad(w: Bytes, r: Bytes)
    requires AllSpace(w)
    ensures SkipSpace(w + r) == SkipSpace(r)
  {
    if w == [] {
      assert w + r == r;
    } else {
      assert (w + r)[1..] == w[1..] + r;
      assert AllSpace(w[1..]);
      SkipSpacePad(w[1..], r);
    }
  }

  lemma SkipSpaceStop(w: Bytes, r: Bytes)
    requires AllSpace(w) && (r == [] || !IsSpace(r[0]))
    ensures SkipSpace(w + r) == r
  {
    SkipSpacePad(w, r);
  }

  lemma {:induction false} SkipSpaceSplit(r: Bytes) returns (w: Bytes)
    ensures AllSpace(w) && r == w + SkipSpace(r)
  {
    if r != [] && IsSpace(r[0]) {
      var rest := SkipSpaceSplit(r[1..]);
      w := [r[0]] + rest;
    } else {
      w := [];
    }
  }

  lemma {:induction false} ScanDigitsComplete(w: Bytes, r: Bytes)
    requires AllDigits(w) && (r == [] || !IsDigit(r[0]))
    ensures ScanDigits(w + r) == r
  {
    if w == [] {
      assert w + r == r;
    } else {
      assert (w + r)[1..] == w[1..] + r;
      assert AllDigits(w[1..]);
      ScanDigitsComplete(w[1..], r);
    }
  }

  lemma ScanSomeDigitsComplete(w: Bytes, r: Bytes)
    requires w != [] && AllDigits(w) && (r == [] || !IsDigit(r[0]))
    ensures ScanSomeDigits(w + r) == Some(r)
  {
    ScanDigitsComplete(w, r);
  }

  lemma {:induction false} ScanSomeDigitsSound(r: Bytes) returns (w: Bytes)
    requires ScanSomeDigits(r).Some?
    ensures w != [] && AllDigits(w) && r == w + ScanSomeDigits(r).value
  {
    if ScanSomeDigits(r[1..]).Some? {
      var rest := ScanSomeDigitsSound(r[1..]);
      w := [r[0]] + rest;
    } else {
      w := [r[0]];
    }
  }

  // ---------------------------------------------------------------- strings

  lemma {:induction false} ScanCharsComplete(b: Bytes, r: Bytes)
    requires IsStringBody(b)
    ensures ScanChars(b + ([QUOTE] + r)) == Some(r)
  {
    var end := [QUOTE] + r;
    var s := b + end;
    if b == [] {
      assert s == end && end[1..] == r;
    } else if b[0] != BACKSLASH {
      assert s[1..] == b[1..] + end;
      ScanCharsComplete(b[1..], r);
    } else if IsEscape(b[1]) {
      assert s[2..] == b[2..] + end;
      ScanCharsComplete(b[2..], r);
    } else {
      var hex := b[2..6];
      assert hex[0] == b[2] && hex[1] == b[3] && hex[2] == b[4] && hex[3] == b[5];
      assert s[6..] == b[6..] + end;
      ScanCharsComplete(b[6..], r);
    }
  }

  lemma {:induction false} ScanCharsSound(r: Bytes) returns (b: Bytes)
    requires ScanChars(r).Some?
    ensures IsStringBody(b) && r == b + ([QUOTE] + ScanChars(r).value)
    decreases |r|
  {
    var end := [QUOTE] + ScanChars(r).value;
    if r[0] == QUOTE {
      b := [];
      assert r == end;
    } else {
      var n := if r[0] != BACKSLASH then 1 else if IsEscape(r[1]) then 2 else 6;
      var rest := ScanCharsSound(r[n..]);
      OnePieceMore(r[..n], rest);
      hide IsStringBody, ScanChars;
      b := r[..n] + rest;
      assert r == r[..n] + r[n..];
      Regroup(r[..n], rest, end);
    }
  }

  /** A character, an escape or a code point in front of a string body. */
  lemma OnePieceMore(piece: Bytes, rest: Bytes)
    requires IsStringBody(rest)
    requires || (|piece| == 1 && piece[0] >= 32 && piece[0] != QUOTE && piece[0] != BACKSLASH)
             || (|piece| == 2 && piece[0] == BACKSLASH && IsEscape(piece[1]))
             || (|piece| == 6 && piece[0] == BACKSLASH && piece[1] == 117
                 && IsHex(piece[2]) && IsHex(piece[3]) && IsHex(piece[4]) && IsHex(piece[5]))
    ensures IsStringBody(piece + rest)
  {
    var b := piece + rest;
    assert b[|piece|..] == rest;
    if |piece| == 6 {
      var hex := b[2..6];
      assert hex[0] == piece[2] && hex[1] == piece[3] && hex[2] == piece[4] && hex[3] == piece[5];
    }
  }

  lemma Regroup(a: Bytes, b: Bytes, c: Bytes)
    ensures (a + b) + c == a + (b + c)
  {
  }

  // ---------------------------------------------------------------- numbers

  lemma ScanWholeComplete(w: Bytes, r: Bytes)
    requires IsWhole(w) && (r == [] || !IsDigit(r[0]))
    ensures ScanWhole(w + r) == Some(r)
  {
    if w[0] == ZERO {
      assert (w + r)[1..] == r;
    } else {
      ScanSomeDigitsComplete(w, r);
    }
  }

  lemma ScanFractionComplete(f: Bytes, r: Bytes)
    requires IsFraction(f) && (r == [] || !(IsDigit(r[0]) || r[0] == DOT))
    ensures ScanFraction(f + r) == Some(r)
  {
    if f == [] {
      assert f + r == r;
    } else {
      assert (f + r)[1..] == f[1..] + r;
      ScanSomeDigitsComplete(f[1..], r);
    }
  }

  lemma ScanExponentComplete(e: Bytes, r: Bytes)
    requires IsExponentPart(e) && Delimited(r)
    ensures ScanExponent(e + r) == Some(r)
  {
    if e == [] {
      assert e + r == r;
    } else {
      var digits := e[1..];
      assert (e + r)[1..] == digits + r;
      if digits[0] == PLUS || digits[0] == MINUS {
        assert (e + r)[2..] == digits[1..] + r;
        ScanSomeDigitsComplete(digits[1..], r);
      } else {
        assert (e + r)[1] == digits[0];
        ScanSomeDigitsComplete(digits, r);
      }
    }
  }

  lemma ScanNumberComplete(v: Value, d: nat, r: Bytes)
    requires v.Number? && Valid(v, d) && Delimited(r)
    ensures ScanNumber(Write(v, r)) == Some(r)
  {
    var afterFraction := v.exponent + r;
    var afterWhole := v.fraction + afterFraction;
    NumberDelimits(v.fraction, v.exponent, r);
    hide IsFraction, IsExponentPart, Delimited;
    ScanWholeComplete(v.whole, afterWhole);
    ScanFractionComplete(v.fraction, afterFraction);
    ScanExponentComplete(v.exponent, r);
    hide ScanWhole, ScanFraction, ScanExponent;
    WithoutSign(v, r);
  }

  /** What follows the whole part and the fraction ends them. */
  lemma NumberDelimits(fraction: Bytes, exponent: Bytes, r: Bytes)
    requires IsFraction(fraction) && IsExponentPart(exponent) && Delimited(r)
    ensures var after := exponent + r; after == [] || !(IsDigit(after[0]) || after[0] == DOT)
    ensures var after := fraction + (exponent + r); after == [] || !IsDigit(after[0])
  {
    assert exponent == [] ==> exponent + r == r;
    assert fraction == [] ==> fraction + (exponent + r) == exponent + r;
  }

  lemma WithoutSign(v: Value, r: Bytes)
    requires v.Number? && IsWhole(v.whole)
    ensures var s := Write(v, r);
      s != [] && (if s[0] == MINUS then s[1..] else s) == v.whole + (v.fraction + (v.exponent + r))
  {
    var digits := v.whole + (v.fraction + (v.exponent + r));
    assert digits[0] == v.whole[0];
    assert v.negative ==> Write(v, r)[1..] == digits;
  }

  lemma ScanWholeSound(r: Bytes) returns (w: Bytes)
    requires ScanWhole(r).Some?
    ensures IsWhole(w) && r == w + ScanWhole(r).value
  {
    if r[0] == ZERO {
      w := [ZERO];
      assert r == [ZERO] + r[1..];
    } else {
      w := ScanSomeDigitsSound(r);
      assert w[0] == r[0];
    }
  }

  lemma ScanFractionSound(r: Bytes) returns (f: Bytes)
    requires ScanFraction(r).Some?
    ensures IsFraction(f) && r == f + ScanFraction(r).value
  {
    if r == [] || r[0] != DOT {
      f := [];
    } else {
      var digits := ScanSomeDigitsSound(r[1..]);
      f := [DOT] + digits;
      assert f[1..] == digits;
      assert r == [DOT] + r[1..];
      Regroup([DOT], digits, ScanFraction(r).value);
    }
  }

  lemma ScanExponentSound(r: Bytes) returns (e: Bytes)
    requires ScanExponent(r).Some?
    ensures IsExponentPart(e) && r == e + ScanExponent(r).value
  {
    if r == [] || !IsExponent(r[0]) {
      e := [];
    } else {
      var signed := |r| >= 2 && (r[1] == PLUS || r[1] == MINUS);
      var n := if signed then 2 else 1;
      var digits := ScanSomeDigitsSound(r[n..]);
      e := r[..n] + digits;
      assert signed ==> e[1..][1..] == digits;
      assert !signed ==> e[1..] == digits;
      assert r == r[..n] + r[n..];
      Regroup(r[..n], digits, ScanExponent(r).value);
    }
  }

  lemma NumberParts(r: Bytes)
    requires ScanNumber(r).Some?
    ensures var unsigned := if r != [] && r[0] == MINUS then r[1..] else r;
      && ScanWhole(unsigned).Some? && ScanFraction(ScanWhole(unsigned).value).Some?
      && ScanNumber(r) == ScanExponent(ScanFraction(ScanWhole(unsigned).value).value)
  {
    hide ScanWhole, ScanFraction, ScanExponent;
  }

  lemma ScanNumberSound(r: Bytes, d: nat) returns (v: Value)
    requires ScanNumber(r).Some?
    ensures v.Number? && Valid(v, d) && r == Write(v, ScanNumber(r).value)
  {
    hide ScanNumber, ScanWhole, ScanFraction, ScanExponent, IsWhole, IsFraction, IsExponentPart;
    NumberParts(r);
    var negative := r != [] && r[0] == MINUS;
    var unsigned := if negative then r[1..] else r;
    var afterWhole := ScanWhole(unsigned).value;
    var afterFraction := ScanFraction(afterWhole).value;
    var whole := ScanWholeSound(unsigned);
    var fraction := ScanFractionSound(afterWhole);
    var exponent := ScanExponentSound(afterFraction);
    v := Number(negative, whole, fraction, exponent);
    assert negative ==> r == [MINUS] + unsigned;
  }

  // ---------------------------------------------------------------- values

  /** Every value starts with a byte that is no blank, and that byte tells which kind of value it is. */
  lemma FirstByte(v: Value, d: nat, r: Bytes)
    requires Valid(v, d)
    ensures var s := Write(v, r);
      && s != [] && !IsSpace(s[0]) && s[0] != CLOSE_BRACKET
      && (v.Number? ==> IsDigit(s[0]) || s[0] == MINUS)
      && (v.Word? ==> s[0] == v.word[0])
  {
    if v.Number? {
      var digits := v.whole + (v.fraction + (v.exponent + r));
      assert digits[0] == v.whole[0];
    }
  }

  lemma ScanWordComplete(w: Bytes, r: Bytes)
    requires w != []
    ensures ScanWord(w + r, w) == Some(r)
  {
    assert (w + r)[|w|..] == r;
  }

  lemma ScanKeyComplete(key: Bytes, gap: Bytes, lead: Bytes, r: Bytes)
    requires IsStringBody(key) && AllSpace(gap) && AllSpace(lead) && (r == [] || !IsSpace(r[0]))
    ensures ScanKey(WriteKey(key, gap, lead, r)) == Some(r)
  {
    var behindColon := [COLON] + (lead + r);
    var behindKey := gap + behindColon;
    assert WriteKey(key, gap, lead, r)[1..] == key + ([QUOTE] + behindKey);
    ScanCharsComplete(key, behindKey);
    SkipSpaceStop(gap, behindColon);
    assert behindColon[1..] == lead + r;
    SkipSpaceStop(lead, r);
  }

  lemma ScanKeySound(r: Bytes) returns (key: Bytes, gap: Bytes, lead: Bytes)
    requires ScanKey(r).Some?
    ensures IsStringBody(key) && AllSpace(gap) && AllSpace(lead)
    ensures r == WriteKey(key, gap, lead, ScanKey(r).value)
  {
    var rest := ScanChars(r[1..]).value;
    var s := SkipSpace(rest);
    key := ScanCharsSound(r[1..]);
    gap := SkipSpaceSplit(rest);
    lead := SkipSpaceSplit(s[1..]);
    HeadTail(r);
    HeadTail(s);
  }

  lemma HeadTail(r: Bytes)
    requires r != []
    ensures r == [r[0]] + r[1..]
  {
  }

  lemma {:induction false} ScanValueComplete(v: Value, d: nat, r: Bytes)
    requires Valid(v, d) && Delimited(r)
    ensures ScanValue(Write(v, r), d) == Some(r)
    decreases v, 0
  {
    var s := Write(v, r);
    FirstByte(v, d, r);
    match v
    case Word(w) => ScanWordComplete(w, r);
    case Number(_, _, _, _) => ScanNumberComplete(v, d, r);
    case Text(body) =>
      assert s[1..] == body + ([QUOTE] + r);
      ScanCharsComplete(body, r);
    case Array(pad, items) =>
      var end := [CLOSE_BRACKET] + r;
      assert end[1..] == r;
      if items.NoItems? {
        assert s[1..] == pad + end;
        SkipSpaceStop(pad, end);
      } else {
        assert s[1..] == WriteItems(items, end);
        ScanItemsComplete(items, d - 1, r);
      }
    case Object(pad, fields) =>
      var end := [CLOSE_BRACE] + r;
      assert end[1..] == r;
      if fields.NoFields? {
        assert s[1..] == pad + end;
        SkipSpaceStop(pad, end);
      } else {
        assert s[1..] == WriteFields(fields, end);
        ScanFieldsComplete(fields, d - 1, r);
      }
  }

  lemma {:induction false} ScanItemsComplete(xs: Items, d: nat, r: Bytes)
    requires xs.Item? && ValidItems(xs, d)
    ensures var s := SkipSpace(WriteItems(xs, [CLOSE_BRACKET] + r));
      s != [] && s[0] != CLOSE_BRACKET && ScanItems(s, d) == Some(r)
    decreases xs, 1
  {
    var end := [CLOSE_BRACKET] + r;
    var tail := if xs.more.NoItems? then end else [COMMA] + WriteItems(xs.more, end);
    var behind := xs.after + tail;
    FirstByte(xs.item, d, behind);
    SkipSpaceStop(xs.before, Write(xs.item, behind));
    assert Delimited(behind) by { assert xs.after == [] ==> behind == tail; }
    ScanValueComplete(xs.item, d, behind);
    SkipSpaceStop(xs.after, tail);
    if xs.more.NoItems? {
      assert tail[1..] == r;
    } else {
      assert tail[1..] == WriteItems(xs.more, end);
      ScanItemsComplete(xs.more, d, r);
    }
  }

  lemma {:induction false} ScanFieldsComplete(fs: Fields, d: nat, r: Bytes)
    requires fs.Field? && ValidFields(fs, d)
    ensures var s := SkipSpace(WriteFields(fs, [CLOSE_BRACE] + r));
      s != [] && s[0] != CLOSE_BRACE && ScanFields(s, d) == Some(r)
    decreases fs, 1
  {
    var end := [CLOSE_BRACE] + r;
    var tail := if fs.more.NoFields? then end else [COMMA] + WriteFields(fs.more, end);
    var behind := fs.after + tail;
    var value := Write(fs.item, behind);
    FirstByte(fs.item, d, behind);
    SkipSpaceStop(fs.before, WriteKey(fs.key, fs.gap, fs.lead, value));
    ScanKeyComplete(fs.key, fs.gap, fs.lead, value);
    assert Delimited(behind) by { assert fs.after == [] ==> behind == tail; }
    ScanValueComplete(fs.item, d, behind);
    SkipSpaceStop(fs.after, tail);
    if fs.more.NoFields? {
      assert tail[1..] == r;
    } else {
      assert tail[1..] == WriteFields(fs.more, end);
      ScanFieldsComplete(fs.more, d, r);
    }
  }

  lemma ScanWordSound(r: Bytes, w: Bytes)
    requires w != [] && ScanWord(r, w).Some?
    ensures r == w + ScanWord(r, w).value
  {
  }

  lemma {:induction false} ScanValueSound(r: Bytes, d: nat) returns (v: Value)
    requires ScanValue(r, d).Some?
    ensures Valid(v, d) && r == Write(v, ScanValue(r, d).value)
    decreases |r|, 0
  {
    if r[0] == QUOTE {
      var body := ScanCharsSound(r[1..]);
      v := Text(body);
      assert r == [QUOTE] + r[1..];
    } else if r[0] == OPEN_BRACE {
      v := ScanObjectSound(r, d);
    } else if r[0] == OPEN_BRACKET {
      v := ScanArraySound(r, d);
    } else if r[0] == TRUE[0] {
      v := Word(TRUE);
      ScanWordSound(r, TRUE);
    } else if r[0] == FALSE[0] {
      v := Word(FALSE);
      ScanWordSound(r, FALSE);
    } else if r[0] == NULL[0] {
      v := Word(NULL);
      ScanWordSound(r, NULL);
    } else {
      v := ScanNumberSound(r, d);
    }
  }

  lemma {:induction false} ScanObjectSound(r: Bytes, d: nat) returns (v: Value)
    requires ScanValue(r, d).Some? && r[0] == OPEN_BRACE
    ensures Valid(v, d) && r == Write(v, ScanValue(r, d).value)
    decreases |r| - 1, 2
  {
    var pad := SkipSpaceSplit(r[1..]);
    var s := SkipSpace(r[1..]);
    HeadTail(r);
    if s[0] == CLOSE_BRACE {
      v := Object(pad, NoFields);
      HeadTail(s);
    } else {
      var fields := ScanFieldsSound(s, pad, d - 1);
      v := Object([], fields);
    }
  }

  lemma {:induction false} ScanArraySound(r: Bytes, d: nat) returns (v: Value)
    requires ScanValue(r, d).Some? && r[0] == OPEN_BRACKET
    ensures Valid(v, d) && r == Write(v, ScanValue(r, d).value)
    decreases |r| - 1, 2
  {
    var pad := SkipSpaceSplit(r[1..]);
    var s := SkipSpace(r[1..]);
    HeadTail(r);
    if s[0] == CLOSE_BRACKET {
      v := Array(pad, NoItems);
      HeadTail(s);
    } else {
      var items := ScanItemsSound(s, pad, d - 1);
      v := Array([], items);
    }
  }

  /** `pad` is what stood between the opening bracket and `r`; the first item of the tree takes it over. */
  lemma {:induction false} ScanItemsSound(r: Bytes, pad: Bytes, d: nat) returns (xs: Items)
    requires ScanItems(r, d).Some? && AllSpace(pad)
    ensures xs.Item? && ValidItems(xs, d) && pad + r == WriteItems(xs, [CLOSE_BRACKET] + ScanItems(r, d).value)
    decreases |r|, 1
  {
    var v := ScanValueSound(r, d);
    var rest := ScanValue(r, d).value;
    var after := SkipSpaceSplit(rest);
    var s := SkipSpace(rest);
    HeadTail(s);
    if s[0] == CLOSE_BRACKET {
      xs := Item(pad, v, after, NoItems);
    } else {
      var next := SkipSpaceSplit(s[1..]);
      var more := ScanItemsSound(SkipSpace(s[1..]), next, d);
      xs := Item(pad, v, after, more);
    }
  }

  lemma {:induction false} ScanFieldsSound(r: Bytes, pad: Bytes, d: nat) returns (fs: Fields)
    requires ScanFields(r, d).Some? && AllSpace(pad)
    ensures fs.Field? && ValidFields(fs, d) && pad + r == WriteFields(fs, [CLOSE_BRACE] + ScanFields(r, d).value)
    decreases |r|, 1
  {
    var key, gap, lead := ScanKeySound(r);
    var value := ScanKey(r).value;
    var v := ScanValueSound(value, d);
    var rest := ScanValue(value, d).value;
    var after := SkipSpaceSplit(rest);
    var s := SkipSpace(rest);
    HeadTail(s);
    if s[0] == CLOSE_BRACE {
      fs := Field(pad, key, gap, lead, v, after, NoFields);
    } else {
      var next := SkipSpaceSplit(s[1..]);
      var more := ScanFieldsSound(SkipSpace(s[1..]), next, d);
      fs := Field(pad, key, gap, lead, v, after, more);
    }
  }

  // ---------------------------------------------------------------- text and continuation

  lemma QuoteAppend(body: Bytes, a: Bytes, b: Bytes)
    ensures Quote(body, a + b) == Quote(body, a) + b
  {
    Regroup([QUOTE], a, b);
    Regroup(body, [QUOTE] + a, b);
    Regroup([QUOTE], body + ([QUOTE] + a), b);
  }

  lemma {:induction false} WriteAppend(v: Value, a: Bytes, b: Bytes)
    ensures Write(v, a + b) == Write(v, a) + b
    decreases v, 0
  {
    match v
    case Word(w) => Regroup(w, a, b);
    case Number(negative, whole, fraction, exponent) =>
      Regroup(exponent, a, b);
      Regroup(fraction, exponent + a, b);
      Regroup(whole, fraction + (exponent + a), b);
      Regroup([MINUS], whole + (fraction + (exponent + a)), b);
    case Text(body) => QuoteAppend(body, a, b);
    case Array(pad, items) =>
      var end := [CLOSE_BRACKET] + a;
      Regroup([CLOSE_BRACKET], a, b);
      Regroup(pad, end, b);
      WriteItemsAppend(items, end, b);
      Regroup([OPEN_BRACKET], if items.NoItems? then pad + end else WriteItems(items, end), b);
    case Object(pad, fields) =>
      var end := [CLOSE_BRACE] + a;
      Regroup([CLOSE_BRACE], a, b);
      Regroup(pad, end, b);
      WriteFieldsAppend(fields, end, b);
      Regroup([OPEN_BRACE], if fields.NoFields? then pad + end else WriteFields(fields, end), b);
  }

  lemma {:induction false} WriteItemsAppend(xs: Items, a: Bytes, b: Bytes)
    ensures WriteItems(xs, a + b) == WriteItems(xs, a) + b
    decreases xs, 1
  {
    match xs
    case NoItems =>
    case Item(before, v, after, more) =>
      WriteItemsAppend(more, a, b);
      Regroup([COMMA], WriteItems(more, a), b);
      var tail := if more.NoItems? then a else [COMMA] + WriteItems(more, a);
      Regroup(after, tail, b);
      WriteAppend(v, after + tail, b);
      Regroup(before, Write(v, after + tail), b);
  }

  lemma WriteKeyAppend(key: Bytes, gap: Bytes, lead: Bytes, a: Bytes, b: Bytes)
    ensures WriteKey(key, gap, lead, a + b) == WriteKey(key, gap, lead, a) + b
  {
    Regroup(lead, a, b);
    Regroup([COLON], lead + a, b);
    Regroup(gap, [COLON] + (lead + a), b);
    QuoteAppend(key, gap + ([COLON] + (lead + a)), b);
  }

  lemma {:induction false} WriteFieldsAppend(fs: Fields, a: Bytes, b: Bytes)
    ensures WriteFields(fs, a + b) == WriteFields(fs, a) + b
    decreases fs, 1
  {
    match fs
    case NoFields =>
    case Field(before, key, gap, lead, v, after, more) =>
      WriteFieldsAppend(more, a, b);
      Regroup([COMMA], WriteFields(more, a), b);
      var tail := if more.NoFields? then a else [COMMA] + WriteFields(more, a);
      Regroup(after, tail, b);
      WriteAppend(v, after + tail, b);
      var value := Write(v, after + tail);
      WriteKeyAppend(key, gap, lead, value, b);
      Regroup(before, WriteKey(key, gap, lead, value), b);
  }

  lemma WriteIsRender(v: Value, r: Bytes)
    ensures Write(v, r) == Render(v) + r
  {
    WriteAppend(v, [], r);
    assert [] + r == r;
  }

  /** The scanner accepts the text of a value and nothing else, and no value text is the beginning of
      another one: behind a delimited value it stops at the end of that value. */
  lemma ScanValueExact(t: Bytes, r: Bytes)
    requires Delimited(r)
    ensures IsValueText(t) <==> ScanValue(t + r, MAX_DEPTH) == Some(r)
  {
    if IsValueText(t) {
      var v :| Valid(v, MAX_DEPTH) && Render(v) == t;
      ScanValueComplete(v, MAX_DEPTH, r);
      WriteIsRender(v, r);
    }
    if ScanValue(t + r, MAX_DEPTH) == Some(r) {
      var v := ScanValueSound(t + r, MAX_DEPTH);
      WriteIsRender(v, r);
      assert t == (t + r)[..|t|];
      assert |Render(v)| == |t|;
      assert Render(v) == (Render(v) + r)[..|t|];
    }
  }
}
