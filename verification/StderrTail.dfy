/** The bounded tail of a boundary step's stderr (go/cmd/evolve/cmd_boundary.go): the last lines of a stream,
    each clipped, kept while the stream arrives in arbitrary chunks. */
module StderrTail {
  import opened Base
  import opened Lines

  const TAIL_LINES: nat := 40
  const LINE_MAX: nat := 4096

  function Clip(line: Bytes): Bytes { LastN(LINE_MAX, line) }

  /** The last 4096 bytes of each line. */
  function ClipAll(lines: seq<Bytes>): seq<Bytes> { Map(l => LastN(4096, l), lines) }

  lemma ClipAllAppend(a: seq<Bytes>, b: seq<Bytes>)
    ensures ClipAll(a + b) == ClipAll(a) + ClipAll(b)
  {
  }

  /** What the tail of a whole stream is: its last 40 lines, clipped. */
  function TailOf(stream: Bytes): seq<Bytes> { LastN(40, ClipAll(All(stream))) }

  /** Clipping a fragment early loses nothing: bytes in front of 4096 newline-free bytes never show. */
  lemma ClipEarly(dropped: Bytes, kept: Bytes, p: Bytes)
    requires IsLine(dropped) && IsLine(kept) && (dropped == [] || |kept| == LINE_MAX)
    ensures ClipAll(Complete(dropped + kept + p)) == ClipAll(Complete(kept + p))
    ensures Clip(Fragment(dropped + kept + p)) == Clip(Fragment(kept + p))
  {
    hide Complete, Fragment, NewlineIndex, Clip, ClipAll;
    var y := kept + p;
    assert dropped + kept + p == dropped + y;
    if dropped == [] {
      assert dropped + y == y;
    } else {
      NoNewline(y);
      var i := NewlineIndex(y);
      if i < 0 {
        ClipFragment(dropped, y);
      } else {
        assert forall k :: 0 <= k < |kept| ==> y[k] == kept[k];
        assert i >= |kept| by {
          NewlineAt(y);
        }
        ClipLonger(dropped, y[..i], y[i + 1..]);
      }
    }
  }

  lemma NewlineAt(s: Bytes)
    requires NewlineIndex(s) >= 0
    ensures s[NewlineIndex(s)] == NEWLINE
  {
    NewlineIndexIsFirst(s);
  }

  lemma ClipFragment(dropped: Bytes, y: Bytes)
    requires IsLine(dropped) && IsLine(y) && |y| >= LINE_MAX
    ensures Complete(dropped + y) == Complete(y) && Clip(Fragment(dropped + y)) == Clip(Fragment(y))
  {
    LineAlone(y);
    LineAlone(dropped + y);
  }

  lemma ClipLonger(dropped: Bytes, line: Bytes, rest: Bytes)
    requires IsLine(dropped) && IsLine(line) && |line| >= LINE_MAX
    ensures var y := line + ([NEWLINE] + rest);
      && ClipAll(Complete(dropped + y)) == ClipAll(Complete(y))
      && Fragment(dropped + y) == Fragment(y)
  {
    hide Complete, Fragment;
    assert dropped + (line + ([NEWLINE] + rest)) == (dropped + line) + ([NEWLINE] + rest);
    CutLine(line, rest);
    CutLine(dropped + line, rest);
    assert Clip(dropped + line) == Clip(line);
    ClipAllAppend([dropped + line], Complete(rest));
    ClipAllAppend([line], Complete(rest));
    assert ClipAll([dropped + line]) == ClipAll([line]);
  }

  /** Part of the way through a write: `rest` is still to be split, `lines` is what the tail keeps of what is
      in front of it. */
  ghost predicate Midway(lines: seq<Bytes>, rest: Bytes, stream: Bytes) {
    && |lines| <= TAIL_LINES
    && LastN(TAIL_LINES, lines + ClipAll(Complete(rest))) == LastN(TAIL_LINES, ClipAll(Complete(stream)))
    && Clip(Fragment(rest)) == Clip(Fragment(stream))
  }

  ghost predicate Settled(lines: seq<Bytes>, partial: Bytes, stream: Bytes) {
    lines == LastN(TAIL_LINES, ClipAll(Complete(stream))) && partial == Clip(Fragment(stream))
  }

  lemma MidwayStarts(lines: seq<Bytes>, partial: Bytes, stream: Bytes, p: Bytes)
    requires Settled(lines, partial, stream)
    ensures Midway(lines, partial + p, stream + p)
  {
    hide Complete, Fragment, LastN, Clip, ClipAll, IsLine;
    var f := Fragment(stream);
    SplitAppend(stream, p);
    SplitJoins(stream);
    var dropped := ClipCuts(f);
    ClipEarly(dropped, partial, p);
    ClipAllAppend(Complete(stream), Complete(f + p));
    LastNAbsorbs(TAIL_LINES, ClipAll(Complete(stream)), ClipAll(Complete(f + p)));
  }

  /** What clipping takes away stands in front of a full line. */
  lemma ClipCuts(f: Bytes) returns (dropped: Bytes)
    requires IsLine(f)
    ensures f == dropped + Clip(f) && IsLine(dropped) && IsLine(Clip(f)) && (dropped == [] || |Clip(f)| == LINE_MAX)
  {
    dropped := f[..|f| - |Clip(f)|];
  }

  lemma MidwaySteps(lines: seq<Bytes>, rest: Bytes, stream: Bytes)
    requires Midway(lines, rest, stream) && NewlineIndex(rest) >= 0
    ensures var i := NewlineIndex(rest);
      Midway(LastN(TAIL_LINES, lines + [Clip(rest[..i])]), rest[i + 1..], stream)
  {
    hide Complete, Fragment, LastN, Clip, NewlineIndex, ClipAll;
    var i := NewlineIndex(rest);
    var line, more := Clip(rest[..i]), Complete(rest[i + 1..]);
    FirstOfComplete(rest);
    ClipAllAppend([rest[..i]], more);
    ClipOne(rest[..i]);
    LastNAbsorbs(TAIL_LINES, lines + [line], ClipAll(more));
    assert (lines + [line]) + ClipAll(more) == lines + ([line] + ClipAll(more));
  }

  lemma ClipOne(line: Bytes)
    ensures ClipAll([line]) == [Clip(line)]
  {
  }

  lemma MidwayEnds(lines: seq<Bytes>, rest: Bytes, stream: Bytes)
    requires Midway(lines, rest, stream) && NewlineIndex(rest) < 0
    ensures Settled(lines, Clip(rest), stream)
  {
    assert lines + ClipAll([]) == lines;
  }

  class Tail {
    var lines: seq<Bytes>
    var partial: Bytes

    /** Every byte written so far. */
    ghost var written: Bytes

    /** The state is a function of the bytes written; how they were cut into chunks does not enter. */
    ghost predicate Valid()
      reads this
    {
      Settled(lines, partial, written)
    }

    /** The state stays small however long the stream is. */
    lemma Bounded()
      requires Valid()
      ensures |lines| <= 40 && |partial| <= 4096
      ensures forall l :: l in lines ==> |l| <= 4096
    {
      var clipped := ClipAll(Complete(written));
      forall l | l in lines
        ensures |l| <= 4096
      {
        assert l in clipped;
      }
    }

    constructor ()
      ensures Valid() && written == []
    {
      lines, partial, written := [], [], [];
    }

    method Write(p: Bytes)
      requires Valid()
      modifies this
      ensures Valid() && written == old(written) + p
    {
      hide Midway, Settled, NewlineIndex, LastN, Clip;
      MidwayStarts(lines, partial, written, p);
      written := written + p;
      var rest := partial + p;
      var i := NewlineIndex(rest);
      while i >= 0
        invariant i == NewlineIndex(rest) && written == old(written) + p
        invariant Midway(lines, rest, written)
        decreases |rest|
      {
        MidwaySteps(lines, rest, written);
        Keep(Clip(rest[..i]));
        rest := rest[i + 1..];
        i := NewlineIndex(rest);
      }
      MidwayEnds(lines, rest, written);
      partial := Clip(rest);
    }

    method Keep(line: Bytes)
      modifies this`lines
      ensures lines == LastN(TAIL_LINES, old(lines) + [line])
    {
      lines := lines + [line];
      var over := |lines| - TAIL_LINES;
      if over > 0 {
        lines := lines[over..];
      }
    }

    /** The tail of everything written. */
    function Lines(): (r: seq<Bytes>)
      requires Valid()
      reads this
      ensures r == TailOf(written)
    {
      var r := LastN(TAIL_LINES, if partial == [] then lines else lines + [partial]);
      assert r == TailOf(written) by {
        var done := ClipAll(Complete(written));
        ClipAllAppend(Complete(written), [Fragment(written)]);
        assert ClipAll([Fragment(written)]) == [partial];
        LastNAbsorbs(TAIL_LINES, done, [partial]);
      }
      r
    }
  }

  function Flatten(chunks: seq<Bytes>): Bytes {
    if chunks == [] then [] else chunks[0] + Flatten(chunks[1..])
  }

  lemma {:induction false} FlattenSnoc(chunks: seq<Bytes>, c: Bytes)
    ensures Flatten(chunks + [c]) == Flatten(chunks) + c
  {
    if chunks == [] {
      assert [c][1..] == [];
      assert Flatten([c]) == c + Flatten([]);
      assert c + [] == c;
    } else {
      assert (chunks + [c])[1..] == chunks[1..] + [c];
      FlattenSnoc(chunks[1..], c);
    }
  }

  /** A dispatched step writes its stderr in chunks of its own choosing; the tail depends on their
      concatenation only. */
  method DispatchKeepingTail(chunks: seq<Bytes>) returns (tail: seq<Bytes>)
    ensures tail == TailOf(Flatten(chunks))
  {
    var t := new Tail();
    for n := 0 to |chunks|
      invariant t.Valid() && fresh(t) && t.written == Flatten(chunks[..n])
    {
      FlattenSnoc(chunks[..n], chunks[n]);
      assert chunks[..n + 1] == chunks[..n] + [chunks[n]];
      t.Write(chunks[n]);
    }
    assert chunks[..|chunks|] == chunks;
    tail := t.Lines();
  }

  // ---------------------------------------------------------------- the boundary sequence

  /** One step of the boundary sequence: whether its arguments release the loop brake, and what its dispatch
      does (exit code, chunks of stderr). */
  datatype Step = Step(releases: bool, rc: int, stderr: seq<Bytes>)

  datatype Report = Finished | Stopped(step: nat, rc: int, brakeReleased: bool, tail: seq<Bytes>)

  /** The sequence stops at its first failing step, says whether an earlier step had released the brake, and
      shows the tail of that step alone. */
  method RunBoundarySteps(steps: seq<Step>) returns (report: Report)
    ensures report.Finished? <==> forall k :: 0 <= k < |steps| ==> steps[k].rc == 0
    ensures report.Stopped? ==>
      && report.step < |steps| && report.rc == steps[report.step].rc != 0
      && (forall k :: 0 <= k < report.step ==> steps[k].rc == 0)
      && (report.brakeReleased <==> exists k :: 0 <= k < report.step && steps[k].releases)
      && report.tail == TailOf(Flatten(steps[report.step].stderr))
  {
    var released := false;
    for n := 0 to |steps|
      invariant forall k :: 0 <= k < n ==> steps[k].rc == 0
      invariant released <==> exists k :: 0 <= k < n && steps[k].releases
    {
      var tail := DispatchKeepingTail(steps[n].stderr);
      if steps[n].rc != 0 {
        return Stopped(n, steps[n].rc, released, tail);
      }
      released := released || steps[n].releases;
    }
    report := Finished;
  }
}
