/** The output tail of a composed-tree gate (go/cmd/evolve/cmd_composition_wiring.go): the last bytes of a
    stream, and the last lines of what those bytes show. */
module TailWriters {
  import opened Base
  import opened Lines

  /** The text without the newlines at its end. */
  function TrimRight(s: Bytes): (t: Bytes)
    ensures |t| <= |s| && (t != [] ==> t[|t| - 1] != NEWLINE)
  {
    if s != [] && s[|s| - 1] == NEWLINE then TrimRight(s[..|s| - 1]) else s
  }

  /** The pieces between the newlines: one more than there are newlines. */
  function Split(s: Bytes): seq<Bytes> { Complete(s) + [Fragment(s)] }

  /** The pieces with a newline between any two. */
  function Concat(lines: seq<Bytes>): Bytes {
    if lines == [] then [] else Join(lines[..|lines| - 1], lines[|lines| - 1])
  }

  function LastLinesOf(s: Bytes, n: nat): Bytes { Concat(LastN(n, Split(TrimRight(s)))) }

  class TailWriter {
    const max: nat
    var buf: Bytes

    /** Every byte written so far. */
    ghost var written: Bytes

    ghost predicate Valid()
      reads this
    {
      buf == LastN(max, written)
    }

    constructor (max: nat)
      ensures Valid() && written == [] && this.max == max
    {
      this.max := max;
      buf, written := [], [];
    }

    method Write(p: Bytes)
      requires Valid()
      modifies this
      ensures Valid() && written == old(written) + p
    {
      LastNAbsorbs(max, written, p);
      written := written + p;
      buf := buf + p;
      if |buf| > max {
        buf := buf[|buf| - max..];
      }
    }

    /** The last lines of the buffer are the last lines of the whole output exactly when those lines and the
        newlines behind them fit in the buffer. */
    function LastLines(n: nat): (r: Bytes)
      requires Valid()
      reads this
      ensures var full := LastLinesOf(written, n);
        r == full <==> full == [] || |full| + |written| - |TrimRight(written)| <= max
    {
      LastLinesFit(written, max, n);
      LastLinesOf(buf, n)
    }
  }

  // ---------------------------------------------------------------- lemmas

  lemma {:induction false} TrimRightSplit(s: Bytes)
    ensures s == TrimRight(s) + s[|TrimRight(s)|..]
    ensures forall k :: |TrimRight(s)| <= k < |s| ==> s[k] == NEWLINE
  {
    if s != [] && s[|s| - 1] == NEWLINE {
      var front := s[..|s| - 1];
      TrimRightSplit(front);
      assert forall k :: 0 <= k < |front| ==> s[k] == front[k];
    }
  }

  lemma {:induction false} TrimRightStop(t: Bytes, newlines: Bytes)
    requires t != [] ==> t[|t| - 1] != NEWLINE
    requires forall k :: 0 <= k < |newlines| ==> newlines[k] == NEWLINE
    ensures TrimRight(t + newlines) == t
  {
    if newlines == [] {
      assert t + newlines == t;
    } else {
      var s := t + newlines;
      assert s[..|s| - 1] == t + newlines[..|newlines| - 1];
      TrimRightStop(t, newlines[..|newlines| - 1]);
    }
  }

  lemma {:induction false} JoinAppend(a: seq<Bytes>, b: seq<Bytes>, f: Bytes)
    ensures Join(a + b, f) == Join(a, []) + Join(b, f)
  {
    if a == [] {
      assert a + b == b;
    } else {
      assert (a + b)[1..] == a[1..] + b;
      JoinAppend(a[1..], b, f);
      JoinHead(a[0], Join(a[1..], []), Join(b, f));
    }
  }

  lemma JoinHead(line: Bytes, rest: Bytes, more: Bytes)
    ensures line + ([NEWLINE] + (rest + more)) == (line + ([NEWLINE] + rest)) + more
  {
  }

  lemma {:induction false} JoinEndsWithNewline(a: seq<Bytes>)
    requires a != []
    ensures var s := Join(a, []); s != [] && s[|s| - 1] == NEWLINE
  {
    if |a| > 1 {
      JoinEndsWithNewline(a[1..]);
    }
  }

  lemma SplitConcat(lines: seq<Bytes>)
    requires lines != [] && AllLines(lines)
    ensures Split(Concat(lines)) == lines
  {
    var n := |lines| - 1;
    assert IsLine(lines[n]);
    SplitUnique(lines[..n], lines[n]);
    assert lines[..n] + [lines[n]] == lines;
  }

  lemma SplitAll(s: Bytes)
    ensures Split(s) != [] && AllLines(Split(s)) && Concat(Split(s)) == s
  {
    SplitJoins(s);
    var lines := Split(s);
    assert lines[..|lines| - 1] == Complete(s);
  }

  /** The last lines of a text end it, and what stands in front of them is nothing or ends with a newline. */
  lemma LastLinesEnd(s: Bytes, n: nat) returns (front: Bytes)
    requires n > 0
    ensures var lines := LastN(n, Split(s));
      && s == front + Concat(lines) && Split(Concat(lines)) == lines
      && (front != [] ==> front[|front| - 1] == NEWLINE && |lines| == n)
  {
    SplitAll(s);
    var all := Split(s);
    var lines := LastN(n, all);
    hide Split, Concat;
    if |all| <= n {
      front := [];
    } else {
      var k := |all| - n;
      assert all == all[..k] + lines;
      assert AllLines(lines) by { assert forall i :: 0 <= i < n ==> lines[i] == all[k + i]; }
      front := FrontOfLines(all[..k], lines);
      SplitConcat(lines);
    }
  }

  lemma FrontOfLines(a: seq<Bytes>, b: seq<Bytes>) returns (front: Bytes)
    requires a != [] && b != []
    ensures Concat(a + b) == front + Concat(b) && front != [] && front[|front| - 1] == NEWLINE
  {
    front := Join(a, []);
    JoinEndsWithNewline(a);
    var n := |b| - 1;
    JoinAppend(a, b[..n], b[n]);
    assert (a + b)[..|a| + n] == a + b[..n];
  }

  /** Text in front of the last lines does not change them, if it ends with a newline. */
  lemma LastLinesBehind(x: Bytes, full: Bytes, n: nat)
    requires n > 0 && |Split(full)| <= n
    requires x != [] ==> x[|x| - 1] == NEWLINE && |Split(full)| == n
    ensures Concat(LastN(n, Split(x + full))) == full
  {
    SplitAll(full);
    hide Concat, Split;
    if x == [] {
      assert x + full == full;
    } else {
      SplitBehind(x, full);
      LastNOfLonger(n, Complete(x), Split(full));
    }
  }

  lemma SplitBehind(x: Bytes, full: Bytes)
    requires x != [] && x[|x| - 1] == NEWLINE
    ensures Split(x + full) == Complete(x) + Split(full)
  {
    hide Complete, Fragment;
    FrontAndLast(x);
    NewlineEnds(x, x[..|x| - 1], full);
    RegroupLines(Complete(x), Complete(full), [Fragment(full)]);
  }

  lemma NewlineEnds(x: Bytes, y: Bytes, full: Bytes)
    requires x == y + [NEWLINE]
    ensures Complete(x + full) == Complete(x) + Complete(full) && Fragment(x + full) == Fragment(full)
  {
    hide Complete, Fragment;
    SplitNewline(y);
    SplitAppend(x, full);
    assert [] + full == full;
  }

  lemma FrontAndLast(x: Bytes)
    requires x != []
    ensures x == x[..|x| - 1] + [x[|x| - 1]]
  {
  }

  lemma LastNOfLonger(n: nat, a: seq<Bytes>, b: seq<Bytes>)
    requires |b| == n
    ensures LastN(n, a + b) == b
  {
  }

  /** The last lines of a text whose last line is not empty, whatever number of newlines is behind it. */
  lemma LastLinesAre(lines: seq<Bytes>, newlines: Bytes, n: nat)
    requires lines != [] && AllLines(lines) && lines[|lines| - 1] != []
    requires forall k :: 0 <= k < |newlines| ==> newlines[k] == 10
    ensures LastLinesOf(Concat(lines) + newlines, n) == Concat(if n <= |lines| then lines[|lines| - n..] else lines)
  {
    var last := lines[|lines| - 1];
    LastByte(lines[..|lines| - 1], last);
    assert IsLine(last);
    TrimRightStop(Concat(lines), newlines);
    SplitConcat(lines);
    hide Concat, Split;
    assert lines[|lines| - 0..] == [];
  }

  lemma {:induction false} LastByte(lines: seq<Bytes>, last: Bytes)
    requires last != []
    ensures var s := Join(lines, last); s != [] && s[|s| - 1] == last[|last| - 1]
  {
    if lines != [] {
      LastByte(lines[1..], last);
    }
  }

  lemma LastLinesShort(s: Bytes, n: nat)
    ensures |LastLinesOf(s, n)| <= |TrimRight(s)|
  {
    if n > 0 {
      var front := LastLinesEnd(TrimRight(s), n);
    }
  }

  lemma LastLinesFit(total: Bytes, max: nat, n: nat)
    ensures var full := LastLinesOf(total, n);
      LastLinesOf(LastN(max, total), n) == full <==> full == [] || |full| + |total| - |TrimRight(total)| <= max
  {
    if n > 0 {
      var front, full, newlines := LastLinesParts(total, n);
      hide Split, LastLinesOf, LastN, TrimRight;
      if full == [] {
        AllNewlines(LastN(max, total), n) by {
          LastNOf(max, total);
        }
      } else if |full| + |newlines| <= max {
        LastLinesKept(front, full, newlines, max, n);
      } else {
        LastLinesLost(front, full, newlines, max, n);
      }
    } else {
      LastLinesNone(total);
      LastLinesNone(LastN(max, total));
    }
  }

  lemma LastLinesNone(s: Bytes)
    ensures LastLinesOf(s, 0) == []
  {
    assert LastN(0, Split(TrimRight(s))) == [];
  }

  lemma LastNOf(max: nat, s: Bytes)
    requires forall k :: 0 <= k < |s| ==> s[k] == NEWLINE
    ensures forall k :: 0 <= k < |LastN(max, s)| ==> LastN(max, s)[k] == NEWLINE
  {
  }

  /** A text is what stands in front of its last lines, those lines, and the newlines at its end. */
  lemma LastLinesParts(total: Bytes, n: nat) returns (front: Bytes, full: Bytes, newlines: Bytes)
    requires n > 0
    ensures full == LastLinesOf(total, n) && total == front + full + newlines
    ensures |newlines| == |total| - |TrimRight(total)| && forall k :: 0 <= k < |newlines| ==> newlines[k] == NEWLINE
    ensures |Split(full)| <= n && (front != [] ==> front[|front| - 1] == NEWLINE && |Split(full)| == n)
    ensures if full == [] then front == [] else full[|full| - 1] != NEWLINE
  {
    hide Split, Concat, TrimRight, LastN;
    var t := TrimRight(total);
    newlines := total[|t|..];
    TrimRightSplit(total);
    front := LastLinesEnd(t, n);
    full := LastLinesOf(total, n);
    if full != [] {
      assert full[|full| - 1] == t[|t| - 1];
    }
  }

  lemma AllNewlines(s: Bytes, n: nat)
    requires n > 0 && forall k :: 0 <= k < |s| ==> s[k] == NEWLINE
    ensures LastLinesOf(s, n) == []
  {
    TrimRightStop([], s);
    assert [] + s == s;
  }

  lemma LastLinesKept(front: Bytes, full: Bytes, newlines: Bytes, max: nat, n: nat)
    requires n > 0 && full != [] && full[|full| - 1] != NEWLINE && |Split(full)| <= n
    requires front != [] ==> front[|front| - 1] == NEWLINE && |Split(full)| == n
    requires forall k :: 0 <= k < |newlines| ==> newlines[k] == NEWLINE
    requires |full| + |newlines| <= max
    ensures LastLinesOf(LastN(max, front + full + newlines), n) == full
  {
    var total := front + full + newlines;
    var x := if |total| <= max then front else front[|total| - max..];
    assert LastN(max, total) == (x + full) + newlines;
    TrimRightStop(x + full, newlines);
    LastLinesBehind(x, full, n);
  }

  lemma LastLinesLost(front: Bytes, full: Bytes, newlines: Bytes, max: nat, n: nat)
    requires n > 0 && full != [] && full[|full| - 1] != NEWLINE
    requires forall k :: 0 <= k < |newlines| ==> newlines[k] == NEWLINE
    requires |full| + |newlines| > max
    ensures LastLinesOf(LastN(max, front + full + newlines), n) != full
  {
    var total := front + full + newlines;
    var kept := LastN(max, total);
    if max <= |newlines| {
      assert kept == newlines[|newlines| - max..];
      AllNewlines(kept, n);
    } else {
      var y := full[|full| + |newlines| - max..];
      assert kept == y + newlines;
      TrimRightStop(y, newlines);
      LastLinesShort(kept, n);
    }
  }
}
