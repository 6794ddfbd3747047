/** JSON text: a concrete syntax tree for the grammar of RFC 8259 (sections 2 to 7) and the byte scanner
    that a streaming decoder runs over it, with a proof that the two agree. */
module JsonText {
  import opened Base

  // ---------------------------------------------------------------- the grammar
  // Written out in bytes, apart from the constants and tests of the scanner below: the proofs that the two agree
  // hold the scanner to these bytes.

  /** Blanks: space, tab, line feed and carriage return. */
  predicate AllSpace(w: Bytes) { forall i :: 0 <= i < |w| ==> w[i] == 9 || w[i] == 10 || w[i] == 13 || w[i] == 32 }

  /** The digits 0 to 9. */
  predicate AllDigits(w: Bytes) { forall i :: 0 <= i < |w| ==> 48 <= w[i] <= 57 }

  /** The digits, A to F and a to f. */
  predicate AllHex(w: Bytes) {
    forall i :: 0 <= i < |w| ==> 48 <= w[i] <= 57 || 65 <= w[i] <= 70 || 97 <= w[i] <= 102
  }

  datatype Value =
    | Word(word: Bytes)
    | Number(negative: bool, whole: Bytes, fraction: Bytes, exponent: Bytes)
    | Text(body: Bytes)
    | Array(pad: Bytes, items: Items)
    | Object(pad: Bytes, fields: Fields)

  datatype Items = NoItems | Item(before: Bytes, item: Value, after: Bytes, more: Items)

  datatype Fields =
    | NoFields
    | Field(before: Bytes, key: Bytes, gap: Bytes, lead: Bytes, item: Value, after: Bytes, more: Fields)

  // Each function below writes a piece of text in front of `r`, the text that follows it.

  function Quote(body: Bytes, r: Bytes): Bytes { [34] + (body + ([34] + r)) }

  function Write(v: Value, r: Bytes): Bytes {
    match v
    case Word(w) => w + r
    case Number(negative, whole, fraction, exponent) =>
      var digits := whole + (fraction + (exponent + r));
      if negative then [45] + digits else digits
    case Text(body) => Quote(body, r)
    case Array(pad, items) =>
      var end := [93] + r;
      [91] + (if items.NoItems? then pad + end else WriteItems(items, end))
    case Object(pad, fields) =>
      var end := [125] + r;
      [123] + (if fields.NoFields? then pad + end else WriteFields(fields, end))
  }

  function WriteItems(xs: Items, r: Bytes): Bytes {
    match xs
    case NoItems => r
    case Item(before, v, after, more) =>
      before + Write(v, after + (if more.NoItems? then r else [44] + WriteItems(more, r)))
  }

  function WriteFields(fs: Fields, r: Bytes): Bytes {
    match fs
    case NoFields => r
    case Field(before, key, gap, lead, v, after, more) =>
      before + WriteKey(key, gap, lead, Write(v, after + (if more.NoFields? then r else [44] + WriteFields(more, r))))
  }

  /** A quoted key, its colon and the blanks around the colon. */
  function WriteKey(key: Bytes, gap: Bytes, lead: Bytes, r: Bytes): Bytes {
    Quote(key, gap + ([58] + (lead + r)))
  }

  /** The text of a value. */
  function Render(v: Value): Bytes { Write(v, []) }

  /** What may stand between the quotes of a string: any byte from 32 on but the quote and the backslash; behind a
      backslash one of " \ / b f n r t, or u and four hex digits. */
  predicate IsStringBody(b: Bytes) {
    || b == []
    || (b[0] >= 32 && b[0] != 34 && b[0] != 92 && IsStringBody(b[1..]))
    || (|b| >= 2 && b[0] == 92 && b[1] in {34, 92, 47, 98, 102, 110, 114, 116} && IsStringBody(b[2..]))
    || (|b| >= 6 && b[0] == 92 && b[1] == 117 && AllHex(b[2..6]) && IsStringBody(b[6..]))
  }

  /** Digits, with no zero in front of another. */
  predicate IsWhole(w: Bytes) { w != [] && AllDigits(w) && (w[0] == 48 ==> |w| == 1) }

  /** Nothing, or a point and digits. */
  predicate IsFraction(f: Bytes) { f == [] || (|f| >= 2 && f[0] == 46 && AllDigits(f[1..])) }

  /** Digits, with a plus or a minus in front of them or not. */
  predicate IsSignedDigits(w: Bytes) {
    || (w != [] && AllDigits(w))
    || (|w| >= 2 && (w[0] == 43 || w[0] == 45) && AllDigits(w[1..]))
  }

  /** Nothing, or e or E and signed digits. */
  predicate IsExponentPart(e: Bytes) { e == [] || ((e[0] == 101 || e[0] == 69) && IsSignedDigits(e[1..])) }

  /** The words true, false and null. */
  predicate IsWord(w: Bytes) {
    w == [116, 114, 117, 101] || w == [102, 97, 108, 115, 101] || w == [110, 117, 108, 108]
  }

  /** A value of the grammar that nests at most `d` arrays and objects. */
  predicate Valid(v: Value, d: nat) {
    match v
    case Word(w) => IsWord(w)
    case Number(_, whole, fraction, exponent) => IsWhole(whole) && IsFraction(fraction) && IsExponentPart(exponent)
    case Text(body) => IsStringBody(body)
    case Array(pad, items) => d > 0 && AllSpace(pad) && ValidItems(items, d - 1)
    case Object(pad, fields) => d > 0 && AllSpace(pad) && ValidFields(fields, d - 1)
  }

  predicate ValidItems(xs: Items, d: nat) {
    match xs
    case NoItems => true
    case Item(before, v, after, more) => AllSpace(before) && Valid(v, d) && AllSpace(after) && ValidItems(more, d)
  }

  predicate ValidFields(fs: Fields, d: nat) {
    match fs
    case NoFields => true
    case Field(before, key, gap, lead, v, after, more) =>
      AllSpace(before) && IsStringBody(key) && AllSpace(gap) && AllSpace(lead) && Valid(v, d) && AllSpace(after)
      && ValidFields(more, d)
  }

  /** `t` is the text of one value. */
  ghost predicate IsValueText(t: Bytes) { exists v :: Valid(v, 10000) && Render(v) == t }

  // ---------------------------------------------------------------- the bytes the scanner knows

  const QUOTE: byte := 34       // "
  const BACKSLASH: byte := 92
  const COMMA: byte := 44
  const COLON: byte := 58
  const OPEN_BRACE: byte := 123
  const CLOSE_BRACE: byte := 125
  const OPEN_BRACKET: byte := 91
  const CLOSE_BRACKET: byte := 93
  const MINUS: byte := 45
  const PLUS: byte := 43
  const DOT: byte := 46
  const ZERO: byte := 48

  const TRUE: Bytes := [116, 114, 117, 101]
  const FALSE: Bytes := [102, 97, 108, 115, 101]
  const NULL: Bytes := [110, 117, 108, 108]

  /** How many arrays and objects the decoder lets one value nest. */
  const MAX_DEPTH: nat := 10000

  predicate IsSpace(c: byte) { c == 32 || c == 9 || c == 10 || c == 13 }
  predicate IsDigit(c: byte) { ZERO <= c <= 57 }
  predicate IsHex(c: byte) { IsDigit(c) || 97 <= c <= 102 || 65 <= c <= 70 }
  predicate IsExponent(c: byte) { c == 101 || c == 69 }

  /** The letters that may follow a backslash on their own: " \ / b f n r t */
  predicate IsEscape(c: byte) { c in [QUOTE, BACKSLASH, 47, 98, 102, 110, 114, 116] }

  /** Nothing in `r` can extend a number that ends just before it. */
  predicate Delimited(r: Bytes) {
    r == [] || IsSpace(r[0]) || r[0] == COMMA || r[0] == CLOSE_BRACE || r[0] == CLOSE_BRACKET
  }

  // ---------------------------------------------------------------- the scanner
  // Each function takes what is left of the input and returns what is left after the piece it reads.

  function SkipSpace(r: Bytes): (rest: Bytes)
    ensures |rest| <= |r|
    ensures rest == [] || !IsSpace(rest[0])
  {
    if r != [] && IsSpace(r[0]) then SkipSpace(r[1..]) else r
  }

  /** Reads up to and past the closing quote. */
  function ScanChars(r: Bytes): (o: Option<Bytes>)
    ensures o.Some? ==> |o.value| < |r|
  {
    if r == [] then None
    else if r[0] == QUOTE then Some(r[1..])
    else if r[0] < 32 then None
    else if r[0] != BACKSLASH then ScanChars(r[1..])
    else if |r| >= 2 && IsEscape(r[1]) then ScanChars(r[2..])
    else if |r| >= 6 && r[1] == 117 && IsHex(r[2]) && IsHex(r[3]) && IsHex(r[4]) && IsHex(r[5]) then ScanChars(r[6..])
    else None
  }

  function ScanDigits(r: Bytes): (rest: Bytes)
    ensures |rest| <= |r|
    ensures rest == [] || !IsDigit(rest[0])
  {
    if r != [] && IsDigit(r[0]) then ScanDigits(r[1..]) else r
  }

  function ScanSomeDigits(r: Bytes): (o: Option<Bytes>)
    ensures o.Some? ==> |o.value| < |r|
  {
    if r == [] || !IsDigit(r[0]) then None else Some(ScanDigits(r))
  }

  function ScanWhole(r: Bytes): (o: Option<Bytes>)
    ensures o.Some? ==> |o.value| < |r|
  {
    if r != [] && r[0] == ZERO then Some(r[1..]) else ScanSomeDigits(r)
  }

  function ScanFraction(r: Bytes): (o: Option<Bytes>)
    ensures o.Some? ==> |o.value| <= |r|
  {
    if r == [] || r[0] != DOT then Some(r) else ScanSomeDigits(r[1..])
  }

  function ScanExponent(r: Bytes): (o: Option<Bytes>)
    ensures o.Some? ==> |o.value| <= |r|
  {
    if r == [] || !IsExponent(r[0]) then Some(r)
    else if |r| >= 2 && (r[1] == PLUS || r[1] == MINUS) then ScanSomeDigits(r[2..])
    else ScanSomeDigits(r[1..])
  }

  function ScanNumber(r: Bytes): (o: Option<Bytes>)
    ensures o.Some? ==> |o.value| < |r|
  {
    match ScanWhole(if r != [] && r[0] == MINUS then r[1..] else r)
    case None => None
    case Some(w) =>
      match ScanFraction(w)
      case None => None
      case Some(f) => ScanExponent(f)
  }

  function ScanWord(r: Bytes, w: Bytes): (o: Option<Bytes>)
    requires w != []
    ensures o.Some? ==> |o.value| < |r|
  {
    if w <= r then Some(r[|w|..]) else None
  }

  /** Reads one value that starts at the first byte. */
  function ScanValue(r: Bytes, d: nat): (o: Option<Bytes>)
    ensures o.Some? ==> |o.value| < |r|
    decreases |r|, 0
  {
    if r == [] then None
    else if r[0] == QUOTE then ScanChars(r[1..])
    else if r[0] == OPEN_BRACE then
      var s := SkipSpace(r[1..]);
      if d == 0 || s == [] then None
      else if s[0] == CLOSE_BRACE then Some(s[1..])
      else ScanFields(s, d - 1)
    else if r[0] == OPEN_BRACKET then
      var s := SkipSpace(r[1..]);
      if d == 0 || s == [] then None
      else if s[0] == CLOSE_BRACKET then Some(s[1..])
      else ScanItems(s, d - 1)
    else if r[0] == TRUE[0] then ScanWord(r, TRUE)
    else if r[0] == FALSE[0] then ScanWord(r, FALSE)
    else if r[0] == NULL[0] then ScanWord(r, NULL)
    else ScanNumber(r)
  }

  /** Reads the items of an array, from the first item past the closing bracket. */
  function ScanItems(r: Bytes, d: nat): (o: Option<Bytes>)
    ensures o.Some? ==> |o.value| < |r|
    decreases |r|, 1
  {
    match ScanValue(r, d)
    case None => None
    case Some(rest) =>
      var s := SkipSpace(rest);
      if s == [] then None
      else if s[0] == CLOSE_BRACKET then Some(s[1..])
      else if s[0] == COMMA then ScanItems(SkipSpace(s[1..]), d)
      else None
  }

  /** Reads a quoted key, its colon and the blanks up to the value. */
  function ScanKey(r: Bytes): (o: Option<Bytes>)
    ensures o.Some? ==> |o.value| < |r|
  {
    if r == [] || r[0] != QUOTE then None
    else
      match ScanChars(r[1..])
      case None => None
      case Some(rest) =>
        var s := SkipSpace(rest);
        if s == [] || s[0] != COLON then None else Some(SkipSpace(s[1..]))
  }

  /** Reads the members of an object, from the first key past the closing brace. */
  function ScanFields(r: Bytes, d: nat): (o: Option<Bytes>)
    ensures o.Some? ==> |o.value| < |r|
    decreases |r|, 1
  {
    match ScanKey(r)
    case None => None
    case Some(v) =>
      match ScanValue(v, d)
      case None => None
      case Some(rest) =>
        var s := SkipSpace(rest);
        if s == [] then None
        else if s[0] == CLOSE_BRACE then Some(s[1..])
        else if s[0] == COMMA then ScanFields(SkipSpace(s[1..]), d)
        else None
  }
}
