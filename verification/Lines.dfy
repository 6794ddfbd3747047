/** Splitting a byte stream at newlines. The writers of this project are fed arbitrary chunks; these lemmas
    say why their result depends on the concatenation of the chunks only. */
module Lines {
  import opened Base

  const NEWLINE: byte := 10

  predicate IsLine(s: Bytes) { forall k :: 0 <= k < |s| ==> s[k] != 10 }

  predicate AllLines(lines: seq<Bytes>) { forall k :: 0 <= k < |lines| ==> IsLine(lines[k]) }

  /** The index of the first newline, or -1. */
  function NewlineIndex(s: Bytes): (i: int)
    ensures -1 <= i < |s|
  {
    if s == [] then -1
    else if s[0] == NEWLINE then 0
    else var i := NewlineIndex(s[1..]); if i < 0 then -1 else i + 1
  }

  /** The lines that a newline ends, without their newlines. */
  function Complete(s: Bytes): seq<Bytes> {
    var i := NewlineIndex(s);
    if i < 0 then [] else [s[..i]] + Complete(s[i + 1..])
  }

  /** What follows the last newline. */
  function Fragment(s: Bytes): Bytes {
    var i := NewlineIndex(s);
    if i < 0 then s else Fragment(s[i + 1..])
  }

  /** All lines of a stream that has ended: a fragment that is not empty counts as a line. */
  function All(s: Bytes): seq<Bytes> {
    if Fragment(s) == [] then Complete(s) else Complete(s) + [Fragment(s)]
  }

  /** The stream that a list of lines and a fragment make up: a line feed behind each line. */
  function Join(lines: seq<Bytes>, fragment: Bytes): Bytes {
    if lines == [] then fragment else lines[0] + ([10] + Join(lines[1..], fragment))
  }

  lemma {:induction false} FirstLine(line: Bytes, rest: Bytes)
    requires IsLine(line)
    ensures NewlineIndex(line + ([NEWLINE] + rest)) == |line|
  {
    var s := line + ([NEWLINE] + rest);
    if line != [] {
      assert s[1..] == line[1..] + ([NEWLINE] + rest);
      FirstLine(line[1..], rest);
    }
  }

  lemma {:induction false} NoNewline(s: Bytes)
    ensures NewlineIndex(s) < 0 <==> IsLine(s)
    ensures var i := NewlineIndex(s); i >= 0 ==> IsLine(s[..i]) && s == s[..i] + ([NEWLINE] + s[i + 1..])
  {
    NewlineIndexIsFirst(s);
    var i := NewlineIndex(s);
    if i >= 0 {
      hide NewlineIndex;
      assert s[i..] == [NEWLINE] + s[i + 1..];
    }
  }

  lemma {:induction false} NewlineIndexIsFirst(s: Bytes)
    ensures var i := NewlineIndex(s);
      && (i >= 0 ==> s[i] == NEWLINE)
      && forall k :: 0 <= k < (if i < 0 then |s| else i) ==> s[k] != NEWLINE
  {
    if s != [] && s[0] != NEWLINE {
      NewlineIndexIsFirst(s[1..]);
      assert forall k :: 0 < k < |s| ==> s[k] == s[1..][k - 1];
    }
  }

  lemma CutLine(line: Bytes, rest: Bytes)
    requires IsLine(line)
    ensures var s := line + ([NEWLINE] + rest);
      Complete(s) == [line] + Complete(rest) && Fragment(s) == Fragment(rest)
  {
    var s := line + ([NEWLINE] + rest);
    FirstLine(line, rest);
    assert s[|line| + 1..] == rest && s[..|line|] == line;
  }

  /** Splitting is the only way to write a stream as newline-free lines and a newline-free fragment. */
  lemma {:induction false} SplitUnique(lines: seq<Bytes>, fragment: Bytes)
    requires AllLines(lines) && IsLine(fragment)
    ensures Complete(Join(lines, fragment)) == lines && Fragment(Join(lines, fragment)) == fragment
  {
    if lines == [] {
      NoNewline(fragment);
    } else {
      assert IsLine(lines[0]);
      CutLine(lines[0], Join(lines[1..], fragment));
      SplitUnique(lines[1..], fragment);
    }
  }

  lemma {:induction false} SplitJoins(s: Bytes)
    ensures Join(Complete(s), Fragment(s)) == s
    ensures AllLines(Complete(s)) && IsLine(Fragment(s))
  {
    hide Complete, Fragment, NewlineIndex, IsLine;
    NoNewline(s);
    var i := NewlineIndex(s);
    if i >= 0 {
      SplitJoins(s[i + 1..]);
      FirstOfComplete(s);
      var more := Complete(s[i + 1..]);
      assert Complete(s)[1..] == more;
      assert forall k :: 0 < k < |more| + 1 ==> Complete(s)[k] == more[k - 1];
    } else {
      LineAlone(s);
    }
  }

  /** The lines of a longer stream: those of the first part, then those that the fragment and the rest make. */
  lemma {:induction false} SplitAppend(a: Bytes, b: Bytes)
    ensures Complete(a + b) == Complete(a) + Complete(Fragment(a) + b)
    ensures Fragment(a + b) == Fragment(Fragment(a) + b)
  {
    var i := NewlineIndex(a);
    NoNewline(a);
    if i >= 0 {
      var line, rest := a[..i], a[i + 1..];
      SplitAppend(rest, b);
      AppendBehindLine(a, line, rest, b);
    }
  }

  lemma AppendBehindLine(a: Bytes, line: Bytes, rest: Bytes, b: Bytes)
    requires a == line + ([NEWLINE] + rest) && IsLine(line)
    requires Complete(rest + b) == Complete(rest) + Complete(Fragment(rest) + b)
    requires Fragment(rest + b) == Fragment(Fragment(rest) + b)
    ensures Complete(a + b) == Complete(a) + Complete(Fragment(a) + b)
    ensures Fragment(a + b) == Fragment(Fragment(a) + b)
  {
    hide Complete, Fragment;
    CutLine(line, rest);
    CutLine(line, rest + b);
    assert a + b == line + ([NEWLINE] + (rest + b));
  }

  /** A line on its own is all fragment. */
  lemma LineAlone(s: Bytes)
    requires IsLine(s)
    ensures Complete(s) == [] && Fragment(s) == s
  {
    NoNewline(s);
  }

  /** A newline completes the fragment. */
  lemma SplitNewline(s: Bytes)
    ensures Complete(s + [NEWLINE]) == Complete(s) + [Fragment(s)] && Fragment(s + [NEWLINE]) == []
  {
    SplitAppend(s, [NEWLINE]);
    SplitJoins(s);
    CutLine(Fragment(s), []);
    assert [NEWLINE] + [] == [NEWLINE];
  }

  lemma FirstOfComplete(s: Bytes)
    requires NewlineIndex(s) >= 0
    ensures var i := NewlineIndex(s);
      Complete(s) == [s[..i]] + Complete(s[i + 1..]) && Fragment(s) == Fragment(s[i + 1..])
  {
  }

  /** Reading one more line off the front of `rest`, behind the lines already read. */
  lemma PeelLine(done: seq<Bytes>, rest: Bytes)
    requires NewlineIndex(rest) >= 0
    ensures var i := NewlineIndex(rest);
      && done + Complete(rest) == (done + [rest[..i]]) + Complete(rest[i + 1..])
      && Fragment(rest) == Fragment(rest[i + 1..])
  {
    hide Complete, Fragment, NewlineIndex;
    FirstOfComplete(rest);
    var i := NewlineIndex(rest);
    RegroupLines(done, [rest[..i]], Complete(rest[i + 1..]));
  }

  lemma RegroupLines(a: seq<Bytes>, b: seq<Bytes>, c: seq<Bytes>)
    ensures (a + b) + c == a + (b + c)
  {
  }

  lemma NothingToPeel(done: seq<Bytes>, rest: Bytes)
    requires NewlineIndex(rest) < 0
    ensures done + Complete(rest) == done && Fragment(rest) == rest
  {
  }
}
