/** The order in which one applier dispatches what it loaded (go/cmd/evolve/cli_queue.go): by the string
    order of the time stamp, then of the path. */
module QueueOrder {
  import opened Base

  /** String order, code unit by code unit. */
  predicate Less(a: string, b: string) {
    b != [] && (a == [] || a[0] < b[0] || (a[0] == b[0] && Less(a[1..], b[1..])))
  }

  lemma {:induction false} LessIrreflexive(a: string)
    ensures !Less(a, a)
  {
    if a != [] {
      LessIrreflexive(a[1..]);
    }
  }

  lemma {:induction false} LessTransitive(a: string, b: string, c: string)
    requires Less(a, b) && Less(b, c)
    ensures Less(a, c)
  {
    if a != [] && a[0] == b[0] && b[0] == c[0] {
      LessTransitive(a[1..], b[1..], c[1..]);
    }
  }

  lemma {:induction false} LessTotal(a: string, b: string)
    ensures Less(a, b) || Less(b, a) || a == b
  {
    if a != [] && b != [] && a[0] == b[0] {
      LessTotal(a[1..], b[1..]);
      assert a == [a[0]] + a[1..] && b == [b[0]] + b[1..];
    }
  }

  lemma SameFirst(a: string, b: string)
    ensures forall k :: 0 < k <= |a| && k <= |b| && a[..k] == b[..k] ==> a[0] == b[0]
  {
    forall k | 0 < k <= |a| && k <= |b| && a[..k] == b[..k] ensures a[0] == b[0] {
      assert a[..k][0] == b[..k][0];
    }
  }

  /** The first difference of two strings that begin alike is the first difference of their rests. */
  lemma BehindHead(a: string, b: string)
    requires a != [] && b != [] && a[0] == b[0]
    ensures var x, y := a[1..], b[1..];
      (exists k :: 0 <= k <= |a| && k < |b| && a[..k] == b[..k] && (k == |a| || a[k] < b[k]))
      <==> (exists k :: 0 <= k <= |x| && k < |y| && x[..k] == y[..k] && (k == |x| || x[k] < y[k]))
  {
    var x, y := a[1..], b[1..];
    if k :| 0 <= k <= |x| && k < |y| && x[..k] == y[..k] && (k == |x| || x[k] < y[k]) {
      assert a[..k + 1] == [a[0]] + x[..k] && b[..k + 1] == [a[0]] + y[..k];
    }
    if k :| 0 <= k <= |a| && k < |b| && a[..k] == b[..k] && (k == |a| || a[k] < b[k]) {
      assert x[..k - 1] == a[..k][1..] && y[..k - 1] == b[..k][1..];
    }
  }

  /** The order of a dictionary: the first place where the strings differ decides, and a prefix comes first. */
  lemma {:induction false} LessMeans(a: string, b: string)
    ensures Less(a, b) <==> exists k :: 0 <= k <= |a| && k < |b| && a[..k] == b[..k] && (k == |a| || a[k] < b[k])
  {
    if a != [] && b != [] && a[0] == b[0] {
      LessMeans(a[1..], b[1..]);
      assert Less(a, b) == Less(a[1..], b[1..]);
      hide Less;
      BehindHead(a, b);
    } else if b != [] {
      assert a[..0] == b[..0];
      SameFirst(a, b);
    }
  }

  // ---------------------------------------------------------------- time stamps

  /** A UTC time with a four-digit year. */
  datatype Timestamp = Timestamp(year: nat, month: nat, day: nat, hour: nat, minute: nat, second: nat, nano: nat) {
    predicate Valid() {
      year < 10000 && month < 100 && day < 100 && hour < 100 && minute < 100 && second < 100 && nano < 1000000000
    }

    predicate Earlier(t: Timestamp) {
      || year < t.year
      || (year == t.year && (month < t.month
      || (month == t.month && (day < t.day
      || (day == t.day && (hour < t.hour
      || (hour == t.hour && (minute < t.minute
      || (minute == t.minute && (second < t.second
      || (second == t.second && nano < t.nano)))))))))))
    }
  }

  function Digit(d: nat): char
    requires d < 10
  {
    '0' + d as char
  }

  /** `n` in exactly `w` digits, in front of `rest`. */
  function Digits(n: nat, w: nat, rest: string): string {
    if w == 0 then rest else Digits(n / 10, w - 1, [Digit(n % 10)] + rest)
  }

  function Pow10(w: nat): nat { if w == 0 then 1 else 10 * Pow10(w - 1) }

  /** The layout 2006-01-02T15:04:05.000000000Z07:00 in UTC. */
  function Format(t: Timestamp): string {
    Digits(t.year, 4, ['-'] + Digits(t.month, 2, ['-'] + Digits(t.day, 2, ['T'] + Digits(t.hour, 2, [':']
      + Digits(t.minute, 2, [':'] + Digits(t.second, 2, ['.'] + Digits(t.nano, 9, ['Z'])))))))
  }

  lemma {:induction false} DigitsOrder(a: nat, b: nat, w: nat, x: string, y: string)
    requires a < Pow10(w) && b < Pow10(w)
    ensures Less(Digits(a, w, x), Digits(b, w, y)) <==> a < b || (a == b && Less(x, y))
  {
    if w > 0 {
      var u, v := [Digit(a % 10)] + x, [Digit(b % 10)] + y;
      assert a / 10 < Pow10(w - 1) && b / 10 < Pow10(w - 1);
      DigitsOrder(a / 10, b / 10, w - 1, u, v);
      assert u[1..] == x && v[1..] == y;
      assert Less(u, v) <==> a % 10 < b % 10 || (a % 10 == b % 10 && Less(x, y));
    }
  }

  lemma SameHead(c: char, x: string, y: string)
    ensures Less([c] + x, [c] + y) <==> Less(x, y)
  {
    assert ([c] + x)[1..] == x && ([c] + y)[1..] == y;
  }

  /** The layout has a fixed width, so string order is chronological order. */
  lemma FormatOrder(a: Timestamp, b: Timestamp)
    requires a.Valid() && b.Valid()
    ensures Less(Format(a), Format(b)) <==> a.Earlier(b)
  {
    Powers();
    hide Less, Digits, Pow10;
    var na, nb := Digits(a.nano, 9, ['Z']), Digits(b.nano, 9, ['Z']);
    assert Less(na, nb) <==> a.nano < b.nano by {
      DigitsOrder(a.nano, b.nano, 9, ['Z'], ['Z']);
      LessIrreflexive(['Z']);
    }
    SameHead('.', na, nb);
    DigitsOrder(a.second, b.second, 2, ['.'] + na, ['.'] + nb);
    var sa, sb := Digits(a.second, 2, ['.'] + na), Digits(b.second, 2, ['.'] + nb);
    SameHead(':', sa, sb);
    DigitsOrder(a.minute, b.minute, 2, [':'] + sa, [':'] + sb);
    var ma, mb := Digits(a.minute, 2, [':'] + sa), Digits(b.minute, 2, [':'] + sb);
    SameHead(':', ma, mb);
    DigitsOrder(a.hour, b.hour, 2, [':'] + ma, [':'] + mb);
    var ha, hb := Digits(a.hour, 2, [':'] + ma), Digits(b.hour, 2, [':'] + mb);
    SameHead('T', ha, hb);
    DigitsOrder(a.day, b.day, 2, ['T'] + ha, ['T'] + hb);
    var da, db := Digits(a.day, 2, ['T'] + ha), Digits(b.day, 2, ['T'] + hb);
    SameHead('-', da, db);
    DigitsOrder(a.month, b.month, 2, ['-'] + da, ['-'] + db);
    var oa, ob := Digits(a.month, 2, ['-'] + da), Digits(b.month, 2, ['-'] + db);
    SameHead('-', oa, ob);
    DigitsOrder(a.year, b.year, 4, ['-'] + oa, ['-'] + ob);
  }

  lemma Powers()
    ensures Pow10(2) == 100 && Pow10(4) == 10000 && Pow10(9) == 1000000000
  {
    assert Pow10(4) == 10 * Pow10(3) && Pow10(3) == 10 * Pow10(2);
    assert Pow10(9) == 10 * Pow10(8) && Pow10(8) == 10 * Pow10(7) && Pow10(7) == 10 * Pow10(6)
        && Pow10(6) == 10 * Pow10(5) && Pow10(5) == 10 * Pow10(4);
  }
}
