/** The names under which requests are queued (go/cmd/evolve/cli_queue.go): verb, time stamp and process. */
module QueueNames {
  import opened Base
  import opened QueueProtocol
  import opened QueueOrder
  import opened QueueListing

  /** A process id in decimal. */
  function Decimal(n: nat): string { if n < 10 then [Digit(n)] else Decimal(n / 10) + [Digit(n % 10)] }

  function Dashed(verb: string): string { Map((c: char) => if c == ' ' then '-' else c, verb) }

  function WithoutColons(s: string): string { Filter(s, c => c != ':') }

  function FileName(verb: string, queuedAt: string, pid: nat): Name {
    Dashed(verb) + "-" + WithoutColons(queuedAt) + "-" + Decimal(pid) + ".json"
  }

  // ---------------------------------------------------------------- no two requests share a name

  lemma {:induction false} DecimalDigits(n: nat)
    ensures (|Decimal(n)| == 1 <==> n < 10) && |Decimal(n)| > 0
    ensures forall k :: 0 <= k < |Decimal(n)| ==> '0' <= Decimal(n)[k] <= '9'
  {
    if n >= 10 {
      DecimalDigits(n / 10);
    }
  }

  lemma {:induction false} DecimalInjective(m: nat, n: nat)
    requires Decimal(m) == Decimal(n)
    ensures m == n
  {
    DecimalDigits(m);
    DecimalDigits(n);
    var dm, dn := Decimal(m), Decimal(n);
    if m < 10 && n < 10 {
      assert dm[0] == dn[0];
    } else {
      assert dm[..|dm| - 1] == Decimal(m / 10) && dn[..|dn| - 1] == Decimal(n / 10);
      assert dm[|dm| - 1] == Digit(m % 10) && dn[|dn| - 1] == Digit(n % 10);
      DecimalInjective(m / 10, n / 10);
    }
  }

  lemma {:induction false} DigitsInjective(a: nat, b: nat, w: nat, x: string, y: string)
    requires a < Pow10(w) && b < Pow10(w) && Digits(a, w, x) == Digits(b, w, y)
    ensures a == b && x == y
  {
    if w > 0 {
      var u, v := [Digit(a % 10)] + x, [Digit(b % 10)] + y;
      DigitsInjective(a / 10, b / 10, w - 1, u, v);
      assert u[0] == v[0] && u[1..] == x && v[1..] == y;
    }
  }

  lemma {:induction false} DigitsLength(n: nat, w: nat, rest: string)
    ensures |Digits(n, w, rest)| == w + |rest|
  {
    if w > 0 {
      DigitsLength(n / 10, w - 1, [Digit(n % 10)] + rest);
    }
  }

  lemma {:induction false} DigitsKept(n: nat, w: nat, rest: string)
    ensures WithoutColons(Digits(n, w, rest)) == Digits(n, w, WithoutColons(rest))
  {
    if w > 0 {
      var more := [Digit(n % 10)] + rest;
      assert more[1..] == rest;
      DigitsKept(n / 10, w - 1, more);
    }
  }

  lemma CharKept(c: char, rest: string)
    ensures WithoutColons([c] + rest) == (if c == ':' then WithoutColons(rest) else [c] + WithoutColons(rest))
  {
    assert ([c] + rest)[1..] == rest;
  }

  /** The stamp in a file name: the layout without its colons. */
  function Compact(t: Timestamp): string {
    Digits(t.year, 4, ['-'] + Digits(t.month, 2, ['-'] + Digits(t.day, 2, ['T'] + Digits(t.hour, 2,
      Digits(t.minute, 2, Digits(t.second, 2, ['.'] + Digits(t.nano, 9, ['Z'])))))))
  }

  lemma CompactFormat(t: Timestamp)
    ensures WithoutColons(Format(t)) == Compact(t)
  {
    hide WithoutColons, Digits;
    CharKept('Z', []);
    assert WithoutColons(['Z']) == ['Z'] by {
      assert ['Z'] + [] == ['Z'] && WithoutColons([]) == [] by { NoColons(); }
    }
    var nano := Digits(t.nano, 9, ['Z']);
    DigitsKept(t.nano, 9, ['Z']);
    CharKept('.', nano);
    var second := Digits(t.second, 2, ['.'] + nano);
    DigitsKept(t.second, 2, ['.'] + nano);
    CharKept(':', second);
    var minute := Digits(t.minute, 2, [':'] + second);
    DigitsKept(t.minute, 2, [':'] + second);
    CharKept(':', minute);
    var hour := Digits(t.hour, 2, [':'] + minute);
    DigitsKept(t.hour, 2, [':'] + minute);
    CharKept('T', hour);
    var day := Digits(t.day, 2, ['T'] + hour);
    DigitsKept(t.day, 2, ['T'] + hour);
    CharKept('-', day);
    var month := Digits(t.month, 2, ['-'] + day);
    DigitsKept(t.month, 2, ['-'] + day);
    CharKept('-', month);
    DigitsKept(t.year, 4, ['-'] + month);
  }

  lemma NoColons()
    ensures WithoutColons([]) == []
  {
  }

  lemma SameRest(c: char, x: string, y: string)
    requires [c] + x == [c] + y
    ensures x == y
  {
    assert ([c] + x)[1..] == x && ([c] + y)[1..] == y;
  }

  /** Without the colons the stamp still tells any two times apart, and it has one length. */
  lemma CompactInjective(a: Timestamp, b: Timestamp)
    requires a.Valid() && b.Valid() && Compact(a) == Compact(b)
    ensures a == b
  {
    Powers();
    hide Digits, Pow10;
    var na, nb := Digits(a.nano, 9, ['Z']), Digits(b.nano, 9, ['Z']);
    var sa, sb := Digits(a.second, 2, ['.'] + na), Digits(b.second, 2, ['.'] + nb);
    var ma, mb := Digits(a.minute, 2, sa), Digits(b.minute, 2, sb);
    var ha, hb := Digits(a.hour, 2, ma), Digits(b.hour, 2, mb);
    var da, db := Digits(a.day, 2, ['T'] + ha), Digits(b.day, 2, ['T'] + hb);
    var oa, ob := Digits(a.month, 2, ['-'] + da), Digits(b.month, 2, ['-'] + db);
    DigitsInjective(a.year, b.year, 4, ['-'] + oa, ['-'] + ob);
    SameRest('-', oa, ob);
    DigitsInjective(a.month, b.month, 2, ['-'] + da, ['-'] + db);
    SameRest('-', da, db);
    DigitsInjective(a.day, b.day, 2, ['T'] + ha, ['T'] + hb);
    SameRest('T', ha, hb);
    DigitsInjective(a.hour, b.hour, 2, ma, mb);
    DigitsInjective(a.minute, b.minute, 2, sa, sb);
    DigitsInjective(a.second, b.second, 2, ['.'] + na, ['.'] + nb);
    SameRest('.', na, nb);
    DigitsInjective(a.nano, b.nano, 9, ['Z'], ['Z']);
  }

  lemma CompactLength(t: Timestamp)
    ensures |Compact(t)| == 28
  {
    hide Digits;
    var nano := Digits(t.nano, 9, ['Z']);
    DigitsLength(t.nano, 9, ['Z']);
    var second := Digits(t.second, 2, ['.'] + nano);
    DigitsLength(t.second, 2, ['.'] + nano);
    var minute := Digits(t.minute, 2, second);
    DigitsLength(t.minute, 2, second);
    var hour := Digits(t.hour, 2, minute);
    DigitsLength(t.hour, 2, minute);
    var day := Digits(t.day, 2, ['T'] + hour);
    DigitsLength(t.day, 2, ['T'] + hour);
    var month := Digits(t.month, 2, ['-'] + day);
    DigitsLength(t.month, 2, ['-'] + day);
    DigitsLength(t.year, 4, ['-'] + month);
  }

  lemma NoDashBehind(u: string, p: string)
    requires '-' !in p
    ensures forall k :: |u| < k < |u + "-" + p| ==> (u + "-" + p)[k] != '-'
  {
    forall k | |u| < k < |u + "-" + p| ensures (u + "-" + p)[k] != '-' {
      assert (u + "-" + p)[k] == p[k - |u| - 1];
    }
  }

  lemma LastDash(u: string, p: string, v: string, q: string)
    requires u + "-" + p == v + "-" + q && '-' !in p && '-' !in q
    ensures u == v && p == q
  {
    var s := u + "-" + p;
    assert s[|u|] == '-' && s[|v|] == '-';
    NoDashBehind(u, p);
    NoDashBehind(v, q);
    assert u == s[..|u|] && v == s[..|v|] && p == s[|u| + 1..] && q == s[|v| + 1..];
  }

  lemma SameEnds(a: string, x: string, b: string, y: string)
    requires a + x == b + y && |x| == |y|
    ensures a == b && x == y
  {
    assert a == (a + x)[..|a|] && b == (b + y)[..|b|] && x == (a + x)[|a|..] && y == (b + y)[|b|..];
  }

  /** Two requests get one name only when their verbs read the same with dashes for blanks, their times are the same
      to the nanosecond, and one process queued them. */
  lemma FileNamesDiffer(v: string, s: Timestamp, m: nat, w: string, t: Timestamp, n: nat)
    requires s.Valid() && t.Valid()
    ensures FileName(v, Format(s), m) == FileName(w, Format(t), n) <==> Dashed(v) == Dashed(w) && s == t && m == n
  {
    hide Dashed, WithoutColons, Decimal, Format, Compact;
    if FileName(v, Format(s), m) == FileName(w, Format(t), n) {
      CompactFormat(s);
      CompactFormat(t);
      var a, b := Dashed(v) + "-" + Compact(s), Dashed(w) + "-" + Compact(t);
      SameEnds(a + "-" + Decimal(m), ".json", b + "-" + Decimal(n), ".json");
      DecimalDigits(m);
      DecimalDigits(n);
      LastDash(a, Decimal(m), b, Decimal(n));
      DecimalInjective(m, n);
      CompactLength(s);
      CompactLength(t);
      SameEnds(Dashed(v) + "-", Compact(s), Dashed(w) + "-", Compact(t));
      SameEnds(Dashed(v), "-", Dashed(w), "-");
      CompactInjective(s, t);
    }
  }

  lemma {:induction false} NoneLeft(s: string)
    ensures ':' !in WithoutColons(s) && forall c :: c in WithoutColons(s) ==> c in s
  {
    if s != [] {
      NoneLeft(s[1..]);
    }
  }

  /** Whatever is queued has a name that an applier loads, and the name is one word without colons. */
  lemma QueuedNamesAreLoaded(verb: string, t: Timestamp, pid: nat, l: Listing)
    requires l.name == FileName(verb, Format(t), pid) && !l.isDir
    ensures NamedJson(l.name) && IsRequestFile(l)
    ensures ' ' !in l.name && (':' !in verb ==> ':' !in l.name)
  {
    hide Decimal, Format, WithoutColons, Compact;
    RequestNames(l.name);
    NoneLeft(Format(t));
    DecimalDigits(pid);
    CompactFormat(t);
    CompactChars(t);
  }

  lemma {:induction false} DigitsChars(n: nat, w: nat, rest: string)
    requires ' ' !in rest
    ensures ' ' !in Digits(n, w, rest)
  {
    if w > 0 {
      DigitsChars(n / 10, w - 1, [Digit(n % 10)] + rest);
    }
  }

  lemma CompactChars(t: Timestamp)
    ensures ' ' !in Compact(t)
  {
    hide Digits;
    var nano := Digits(t.nano, 9, ['Z']);
    DigitsChars(t.nano, 9, ['Z']);
    var second := Digits(t.second, 2, ['.'] + nano);
    DigitsChars(t.second, 2, ['.'] + nano);
    var minute := Digits(t.minute, 2, second);
    DigitsChars(t.minute, 2, second);
    var hour := Digits(t.hour, 2, minute);
    DigitsChars(t.hour, 2, minute);
    var day := Digits(t.day, 2, ['T'] + hour);
    DigitsChars(t.day, 2, ['T'] + hour);
    var month := Digits(t.month, 2, ['-'] + day);
    DigitsChars(t.month, 2, ['-'] + day);
    DigitsChars(t.year, 4, ['-'] + month);
  }
}
