/** Lane output with a line prefix (go/cmd/evolve/cmd_fleet_logprefix.go): the writer on its own, then any
    number of writers that share one sink and one mutex, step by step. */
module PrefixLines {
  import opened Base
  import opened Lines

  function PrefixedLine(prefix: Bytes, line: Bytes): Bytes { prefix + (line + [NEWLINE]) }

  function PrefixedLines(prefix: Bytes, lines: seq<Bytes>): Bytes {
    if lines == [] then [] else PrefixedLine(prefix, lines[0]) + PrefixedLines(prefix, lines[1..])
  }

  class Sink {
    var out: Bytes

    constructor ()
      ensures out == []
    {
      out := [];
    }
  }

  class PrefixLineWriter {
    const w: Sink
    const prefix: Bytes
    var buf: Bytes

    constructor (w: Sink, prefix: Bytes)
      ensures this.w == w && this.prefix == prefix && buf == []
    {
      this.w := w;
      this.prefix := prefix;
      buf := [];
    }

    method Emit(line: Bytes)
      modifies w
      ensures w.out == old(w.out) + (prefix + line)
    {
      w.out := w.out + prefix;
      w.out := w.out + line;
    }

    /** Every line the chunk completes goes out behind the prefix; the rest waits. */
    method Write(b: Bytes)
      modifies this`buf, w
      ensures buf == Fragment(old(buf) + b)
      ensures w.out == old(w.out) + PrefixedLines(prefix, Complete(old(buf) + b))
    {
      ghost var all := buf + b;
      buf := buf + b;
      var i := NewlineIndex(buf);
      assert w.out + PrefixedLines(prefix, Complete(all)) == old(w.out) + PrefixedLines(prefix, Complete(all));
      while i >= 0
        invariant i == NewlineIndex(buf) && Fragment(buf) == Fragment(all)
        invariant w.out + PrefixedLines(prefix, Complete(buf)) == old(w.out) + PrefixedLines(prefix, Complete(all))
        decreases |buf|
      {
        ghost var before, out := buf, w.out;
        Emit(buf[..i + 1]);
        buf := buf[i + 1..];
        EmitStep(before, out);
        i := NewlineIndex(buf);
      }
      assert w.out + [] == w.out;
    }

    lemma EmitStep(before: Bytes, out: Bytes)
      requires NewlineIndex(before) >= 0
      ensures var i := NewlineIndex(before);
        && Fragment(before) == Fragment(before[i + 1..])
        && out + (prefix + before[..i + 1]) + PrefixedLines(prefix, Complete(before[i + 1..]))
        == out + PrefixedLines(prefix, Complete(before))
    {
      var i := NewlineIndex(before);
      var line, more := before[..i], Complete(before[i + 1..]);
      assert before[..i + 1] == line + [NEWLINE] by { NoNewline(before); }
      assert PrefixedLines(prefix, Complete(before)) == PrefixedLine(prefix, line) + PrefixedLines(prefix, more) by {
        assert ([line] + more)[1..] == more;
      }
      hide Complete, PrefixedLines, NewlineIndex;
      Regroup(out, PrefixedLine(prefix, line), PrefixedLines(prefix, more));
    }

    lemma Regroup(a: Bytes, b: Bytes, c: Bytes)
      ensures (a + b) + c == a + (b + c)
    {
    }

    /** A fragment goes out as a line of its own. */
    method Flush()
      modifies this`buf, w
      ensures buf == []
      ensures w.out == old(w.out) + (if old(buf) == [] then [] else PrefixedLine(prefix, old(buf)))
    {
      if buf == [] { return; }
      Emit(buf + [NEWLINE]);
      buf := [];
    }
  }
}

/** The interleavings. A writer holds the mutex for a whole call; between two steps of the holder any other
    writer may run, but it can only wait. */
module PrefixLineRuns {
  import opened Base
  import opened Lines
  import opened PrefixLines

  datatype Op = Write(chunk: Bytes) | Flush

  /** Idle: outside a call. Holding: in a call, between two lines. Printing: the prefix of a line is out and the
      line is not. */
  datatype Phase = Idle | Holding(op: Op) | Printing(op: Op)

  /** `sink` tells which of the sinks it writes to; `ops` records the calls the writer has begun. */
  datatype Writer = Writer(prefix: Bytes, sink: nat, buf: Bytes, phase: Phase, ops: seq<Op>)

  datatype Printed = Printed(writer: nat, line: Bytes)

  /** `log` records the lines that have been printed, by whom and in which order. */
  datatype State = State(writers: seq<Writer>, lock: Option<nat>, sinks: seq<Bytes>, log: seq<Printed>)

  predicate Init(s: State) {
    && s.lock == None && s.log == [] && (forall k :: 0 <= k < |s.sinks| ==> s.sinks[k] == [])
    && forall i :: 0 <= i < |s.writers| ==>
         s.writers[i].buf == [] && s.writers[i].phase == Idle && s.writers[i].ops == [] && s.writers[i].sink < |s.sinks|
  }

  /** The sinks after some bytes went to one of them. */
  function Out(sinks: seq<Bytes>, k: nat, bytes: Bytes): seq<Bytes> {
    if k < |sinks| then sinks[k := sinks[k] + bytes] else sinks
  }

  function Set(s: State, i: nat, w: Writer): State
    requires i < |s.writers|
  {
    s.(writers := s.writers[i := w])
  }

  predicate Acquire(s: State, t: State, i: nat, op: Op) {
    && i < |s.writers| && s.lock == None && s.writers[i].phase == Idle
    && var w := s.writers[i];
       var buf := match op case Write(chunk) => w.buf + chunk case Flush => w.buf;
       t == Set(s, i, w.(buf := buf, phase := Holding(op), ops := w.ops + [op])).(lock := Some(i))
  }

  /** Whether the call of a writer has a line left to print. */
  predicate HasLine(w: Writer)
    requires !w.phase.Idle?
  {
    match w.phase.op case Write(_) => NewlineIndex(w.buf) >= 0 case Flush => w.buf != []
  }

  predicate PrintPrefix(s: State, t: State, i: nat) {
    && i < |s.writers| && s.writers[i].phase.Holding? && HasLine(s.writers[i])
    && var w := s.writers[i];
       t == Set(s, i, w.(phase := Printing(w.phase.op))).(sinks := Out(s.sinks, w.sink, w.prefix))
  }

  /** The line a call prints next, and what the buffer holds after it. */
  function NextLine(w: Writer): Bytes
    requires !w.phase.Idle? && HasLine(w)
  {
    match w.phase.op case Write(_) => w.buf[..NewlineIndex(w.buf)] case Flush => w.buf
  }

  function AfterLine(w: Writer): Bytes
    requires !w.phase.Idle? && HasLine(w)
  {
    match w.phase.op case Write(_) => w.buf[NewlineIndex(w.buf) + 1..] case Flush => []
  }

  predicate PrintLine(s: State, t: State, i: nat) {
    && i < |s.writers| && s.writers[i].phase.Printing? && HasLine(s.writers[i])
    && var w := s.writers[i];
       t == Set(s, i, w.(buf := AfterLine(w), phase := Holding(w.phase.op)))
            .(sinks := Out(s.sinks, w.sink, NextLine(w) + [NEWLINE]), log := s.log + [Printed(i, NextLine(w))])
  }

  predicate Release(s: State, t: State, i: nat) {
    && i < |s.writers| && s.writers[i].phase.Holding? && !HasLine(s.writers[i])
    && t == Set(s, i, s.writers[i].(phase := Idle)).(lock := None)
  }

  datatype Action = DoAcquire(op: Op) | DoPrefix | DoLine | DoRelease

  predicate Does(s: State, t: State, i: nat, a: Action) {
    match a
    case DoAcquire(op) => Acquire(s, t, i, op)
    case DoPrefix => PrintPrefix(s, t, i)
    case DoLine => PrintLine(s, t, i)
    case DoRelease => Release(s, t, i)
  }

  ghost predicate Next(s: State, t: State) { exists i: nat, a: Action :: Does(s, t, i, a) }

  /** A run, one scheduler decision at a time. */
  ghost predicate Run(run: seq<State>) {
    run != [] && Init(run[0]) && forall k :: 0 <= k < |run| - 1 ==> Next(run[k], run[k + 1])
  }

  // ---------------------------------------------------------------- what a sink should hold

  /** The byte stream of one writer: its chunks, and a newline where a flush ended a fragment. */
  function Stream(ops: seq<Op>): Bytes {
    if ops == [] then []
    else
      var s := Stream(ops[..|ops| - 1]);
      match ops[|ops| - 1]
      case Write(chunk) => s + chunk
      case Flush => if Fragment(s) == [] then s else s + [NEWLINE]
  }

  /** The lines that one writer has printed, in order. */
  function LinesOf(log: seq<Printed>, i: nat): seq<Bytes> {
    if log == [] then []
    else
      var last := log[|log| - 1];
      LinesOf(log[..|log| - 1], i) + (if last.writer == i then [last.line] else [])
  }

  /** The lines printed to one sink, each whole and behind the prefix of its writer. */
  function WholeLines(writers: seq<Writer>, log: seq<Printed>, k: nat): Bytes {
    if log == [] then []
    else WholeLines(writers, log[..|log| - 1], k) + LineAt(writers, log[|log| - 1], k)
  }

  /** What a printed line is to a sink. */
  function LineAt(writers: seq<Writer>, p: Printed, k: nat): Bytes {
    if p.writer < |writers| && writers[p.writer].sink == k then PrefixedLine(writers[p.writer].prefix, p.line) else []
  }

  /** The lines that the call in progress still has to print. */
  function Pending(w: Writer): seq<Bytes> {
    if !w.phase.Idle? && w.phase.op.Flush? then (if w.buf == [] then [] else [w.buf]) else Complete(w.buf)
  }

  function Waiting(w: Writer): Bytes {
    if !w.phase.Idle? && w.phase.op.Flush? then [] else Fragment(w.buf)
  }

  ghost predicate GoodWriter(w: Writer, printed: seq<Bytes>) {
    && Complete(Stream(w.ops)) == printed + Pending(w)
    && Fragment(Stream(w.ops)) == Waiting(w)
    && (w.phase.Idle? || w.phase.op.Flush? ==> IsLine(w.buf))
    && (w.phase.Printing? ==> HasLine(w))
  }

  /** A writer is in a call exactly when it holds the mutex. */
  predicate LockInv(s: State) {
    && (forall i :: 0 <= i < |s.writers| ==> (s.lock == Some(i) <==> !s.writers[i].phase.Idle?))
    && (s.lock.Some? ==> s.lock.value < |s.writers|)
    && (forall i :: 0 <= i < |s.writers| ==> s.writers[i].sink < |s.sinks|)
  }

  ghost predicate WritersInv(s: State) {
    forall i :: 0 <= i < |s.writers| ==> GoodWriter(s.writers[i], LinesOf(s.log, i))
  }

  /** The prefix whose line is still to come to a sink. */
  function Dangling(s: State, k: nat): Bytes
    requires LockInv(s)
  {
    if s.lock.Some? then DanglingOf(s.writers[s.lock.value], k) else []
  }

  function DanglingOf(w: Writer, k: nat): Bytes { if w.phase.Printing? && w.sink == k then w.prefix else [] }

  predicate SinkInv(s: State, k: nat)
    requires LockInv(s) && k < |s.sinks|
  {
    s.sinks[k] == WholeLines(s.writers, s.log, k) + Dangling(s, k)
  }

  /** In every state each sink holds whole lines, followed by at most one prefix: that of the lock holder. */
  ghost predicate Inv(s: State) {
    LockInv(s) && WritersInv(s) && forall k :: 0 <= k < |s.sinks| ==> SinkInv(s, k)
  }

  predicate SamePlace(a: Writer, b: Writer) { a.prefix == b.prefix && a.sink == b.sink }

  lemma {:induction false} SamePrefixes(a: seq<Writer>, b: seq<Writer>, log: seq<Printed>, k: nat)
    requires |a| == |b| && forall i :: 0 <= i < |a| ==> SamePlace(a[i], b[i])
    ensures WholeLines(a, log, k) == WholeLines(b, log, k)
  {
    if log != [] {
      SamePrefixes(a, b, log[..|log| - 1], k);
    }
  }

  lemma StreamSnoc(ops: seq<Op>, op: Op)
    ensures Stream(ops + [op]) == match op
      case Write(chunk) => Stream(ops) + chunk
      case Flush => if Fragment(Stream(ops)) == [] then Stream(ops) else Stream(ops) + [NEWLINE]
  {
    assert (ops + [op])[..|ops|] == ops;
  }

  lemma LogSnoc(writers: seq<Writer>, log: seq<Printed>, p: Printed, i: nat)
    ensures LinesOf(log + [p], i) == LinesOf(log, i) + (if p.writer == i then [p.line] else [])
    ensures WholeLines(writers, log + [p], i) == WholeLines(writers, log, i) + LineAt(writers, p, i)
  {
    assert (log + [p])[..|log|] == log;
  }

  lemma AcquireGood(w: Writer, printed: seq<Bytes>, op: Op)
    requires GoodWriter(w, printed) && w.phase == Idle
    ensures var buf := match op case Write(chunk) => w.buf + chunk case Flush => w.buf;
      GoodWriter(w.(buf := buf, phase := Holding(op), ops := w.ops + [op]), printed)
  {
    hide Stream, Complete, Fragment, NewlineIndex, IsLine;
    var s := Stream(w.ops);
    LineAlone(w.buf);
    StreamSnoc(w.ops, op);
    assert printed + [] == printed;
    match op
    case Write(chunk) => SplitAppend(s, chunk);
    case Flush => SplitNewline(s);
  }

  lemma PrintGood(w: Writer, printed: seq<Bytes>)
    requires GoodWriter(w, printed) && w.phase.Printing?
    ensures GoodWriter(w.(buf := AfterLine(w), phase := Holding(w.phase.op)), printed + [NextLine(w)])
    ensures IsLine(NextLine(w))
  {
    var v := w.(buf := AfterLine(w), phase := Holding(w.phase.op));
    LinePrinted(w);
    hide Stream, Complete, Fragment, Pending, Waiting, HasLine, NextLine, AfterLine, IsLine;
    assert printed + ([NextLine(w)] + Pending(v)) == (printed + [NextLine(w)]) + Pending(v);
  }

  lemma LinePrinted(w: Writer)
    requires w.phase.Printing? && HasLine(w) && (w.phase.op.Flush? ==> IsLine(w.buf))
    ensures var v := w.(buf := AfterLine(w), phase := Holding(w.phase.op));
      && Pending(w) == [NextLine(w)] + Pending(v) && Waiting(w) == Waiting(v)
      && IsLine(NextLine(w)) && (w.phase.op.Flush? ==> IsLine(v.buf))
  {
    hide Complete, Fragment, NewlineIndex;
    NoNewline(w.buf);
    if w.phase.op.Write? {
      FirstOfComplete(w.buf);
    } else {
      LineAlone(AfterLine(w));
    }
  }

  lemma PrefixGood(w: Writer, printed: seq<Bytes>)
    requires GoodWriter(w, printed) && w.phase.Holding? && HasLine(w)
    ensures GoodWriter(w.(phase := Printing(w.phase.op)), printed)
  {
    hide Stream, Complete, Fragment, NewlineIndex;
  }

  lemma ReleaseGood(w: Writer, printed: seq<Bytes>)
    requires GoodWriter(w, printed) && w.phase.Holding? && !HasLine(w)
    ensures GoodWriter(w.(phase := Idle), printed)
  {
    NoNewline(w.buf);
    hide Stream, NewlineIndex;
  }

  /** A step that prints no line touches one writer only. */
  lemma WritersStay(s: State, t: State, i: nat, w: Writer)
    requires WritersInv(s) && i < |s.writers| && t.writers == s.writers[i := w] && t.log == s.log
    requires SamePlace(w, s.writers[i]) && GoodWriter(w, LinesOf(s.log, i))
    ensures WritersInv(t) && forall k :: WholeLines(t.writers, t.log, k) == WholeLines(s.writers, s.log, k)
  {
    hide GoodWriter, LinesOf, WholeLines;
    forall k ensures WholeLines(t.writers, t.log, k) == WholeLines(s.writers, s.log, k) {
      SamePrefixes(t.writers, s.writers, s.log, k);
    }
  }

  lemma AcquireKeeps(s: State, t: State, i: nat, op: Op)
    requires Inv(s) && Acquire(s, t, i, op)
    ensures Inv(t)
  {
    hide GoodWriter, LinesOf, WholeLines;
    AcquireGood(s.writers[i], LinesOf(s.log, i), op);
    WritersStay(s, t, i, t.writers[i]);
    hide WritersInv;
    forall k | 0 <= k < |t.sinks| ensures SinkInv(t, k) {
      assert SinkInv(s, k);
    }
  }

  lemma PrintPrefixKeeps(s: State, t: State, i: nat)
    requires Inv(s) && PrintPrefix(s, t, i)
    ensures Inv(t)
  {
    hide GoodWriter, LinesOf, WholeLines, WritersInv, HasLine;
    WriterGood(s, i);
    PrefixGood(s.writers[i], LinesOf(s.log, i));
    WritersStay(s, t, i, t.writers[i]);
    assert s.lock == Some(i);
    forall k | 0 <= k < |t.sinks| ensures SinkInv(t, k) {
      assert SinkInv(s, k);
      assert WholeLines(s.writers, s.log, k) + [] == WholeLines(s.writers, s.log, k);
    }
  }

  lemma WriterGood(s: State, i: nat)
    requires WritersInv(s) && i < |s.writers|
    ensures GoodWriter(s.writers[i], LinesOf(s.log, i))
  {
  }

  lemma ReleaseKeeps(s: State, t: State, i: nat)
    requires Inv(s) && Release(s, t, i)
    ensures Inv(t)
  {
    hide GoodWriter, LinesOf, WholeLines, WritersInv, HasLine;
    WriterGood(s, i);
    ReleaseGood(s.writers[i], LinesOf(s.log, i));
    WritersStay(s, t, i, t.writers[i]);
    assert s.lock == Some(i);
    forall k | 0 <= k < |t.sinks| ensures SinkInv(t, k) {
      assert SinkInv(s, k);
    }
  }

  /** A step that prints a line adds it to the lines of its writer and of no other. */
  lemma WritersPrint(s: State, t: State, i: nat, w: Writer, line: Bytes)
    requires WritersInv(s) && i < |s.writers| && t.writers == s.writers[i := w] && t.log == s.log + [Printed(i, line)]
    requires SamePlace(w, s.writers[i]) && GoodWriter(w, LinesOf(s.log, i) + [line])
    ensures WritersInv(t)
  {
    hide GoodWriter, WholeLines, LineAt;
    forall j | 0 <= j < |t.writers|
      ensures GoodWriter(t.writers[j], LinesOf(t.log, j))
    {
      LogSnoc(s.writers, s.log, Printed(i, line), j);
      assert LinesOf(s.log, j) + [] == LinesOf(s.log, j);
      WriterGood(s, j);
    }
  }

  lemma SinkPrints(s: State, t: State, i: nat, w: Writer, line: Bytes, k: nat)
    requires i < |s.writers| && t.writers == s.writers[i := w] && t.log == s.log + [Printed(i, line)]
    requires SamePlace(w, s.writers[i])
    ensures WholeLines(t.writers, t.log, k)
         == WholeLines(s.writers, s.log, k) + (if w.sink == k then PrefixedLine(w.prefix, line) else [])
  {
    SamePrefixes(s.writers, t.writers, t.log, k);
    LogSnoc(s.writers, s.log, Printed(i, line), k);
  }

  lemma PrintLineKeeps(s: State, t: State, i: nat)
    requires Inv(s) && PrintLine(s, t, i)
    ensures Inv(t)
  {
    hide GoodWriter, LinesOf, WholeLines, WritersInv, HasLine, NextLine, AfterLine;
    var w, line := s.writers[i], NextLine(s.writers[i]);
    WriterGood(s, i);
    PrintGood(w, LinesOf(s.log, i));
    WritersPrint(s, t, i, t.writers[i], line);
    assert s.lock == Some(i);
    forall k | 0 <= k < |t.sinks| ensures SinkInv(t, k) {
      assert SinkInv(s, k);
      SinkPrints(s, t, i, t.writers[i], line, k);
      var whole := WholeLines(s.writers, s.log, k);
      assert (whole + w.prefix) + (line + [NEWLINE]) == whole + (w.prefix + (line + [NEWLINE]));
    }
  }

  lemma InitInv(s: State)
    requires Init(s)
    ensures Inv(s)
  {
  }

  lemma NextKeeps(s: State, t: State)
    requires Inv(s) && Next(s, t)
    ensures Inv(t)
  {
    hide Inv, Acquire, PrintPrefix, PrintLine, Release;
    var i: nat, a :| Does(s, t, i, a);
    match a
    case DoAcquire(op) => AcquireKeeps(s, t, i, op);
    case DoPrefix => PrintPrefixKeeps(s, t, i);
    case DoLine => PrintLineKeeps(s, t, i);
    case DoRelease => ReleaseKeeps(s, t, i);
  }

  lemma {:induction false} RunInv(run: seq<State>, k: nat)
    requires Run(run) && k < |run|
    ensures Inv(run[k])
  {
    if k == 0 {
      InitInv(run[0]);
    } else {
      RunInv(run, k - 1);
      NextKeeps(run[k - 1], run[k]);
    }
  }

  /** Whenever the mutex is free, each sink is a merge of the whole prefixed lines of its writers, and what one writer
      contributed is its own stream split at newlines: nothing lost, repeated or reordered. */
  lemma SinkIsMerge(run: seq<State>, k: nat)
    requires Run(run) && k < |run| && run[k].lock == None
    ensures var s := run[k];
      && (forall m :: 0 <= m < |s.sinks| ==> s.sinks[m] == WholeLines(s.writers, s.log, m))
      && forall i :: 0 <= i < |s.writers| ==>
           LinesOf(s.log, i) == Complete(Stream(s.writers[i].ops)) && s.writers[i].buf == Fragment(Stream(s.writers[i].ops))
  {
    RunInv(run, k);
    var s := run[k];
    forall m | 0 <= m < |s.sinks| ensures s.sinks[m] == WholeLines(s.writers, s.log, m) {
      assert SinkInv(s, m);
    }
    forall i | 0 <= i < |s.writers|
      ensures LinesOf(s.log, i) == Complete(Stream(s.writers[i].ops)) && s.writers[i].buf == Fragment(Stream(s.writers[i].ops))
    {
      assert GoodWriter(s.writers[i], LinesOf(s.log, i));
      NoNewline(s.writers[i].buf);
    }
  }

  /** The chunks of a list of calls. */
  function Chunks(ops: seq<Op>): Bytes {
    if ops == [] then []
    else
      var last := ops[|ops| - 1];
      Chunks(ops[..|ops| - 1]) + (match last case Write(chunk) => chunk case Flush => [])
  }

  lemma {:induction false} StreamOfWrites(ops: seq<Op>)
    requires forall n :: 0 <= n < |ops| ==> ops[n].Write?
    ensures Stream(ops) == Chunks(ops)
  {
    if ops != [] {
      StreamOfWrites(ops[..|ops| - 1]);
    }
  }

  /** A lane that wrote its output in any chunks and then flushed once has printed exactly the lines of that
      output, a last line without a newline included. */
  lemma LanePrintsItsOutput(run: seq<State>, k: nat, i: nat, writes: seq<Op>)
    requires Run(run) && k < |run| && run[k].lock == None && i < |run[k].writers|
    requires forall n :: 0 <= n < |writes| ==> writes[n].Write?
    requires run[k].writers[i].ops == writes + [Flush]
    ensures LinesOf(run[k].log, i) == All(Chunks(writes)) && run[k].writers[i].buf == []
  {
    SinkIsMerge(run, k);
    StreamSnoc(writes, Flush);
    StreamOfWrites(writes);
    SplitNewline(Stream(writes));
  }

  // ---------------------------------------------------------------- one call, undisturbed

  ghost predicate Steps(run: seq<State>) { run != [] && forall k :: 0 <= k < |run| - 1 ==> Next(run[k], run[k + 1]) }

  lemma StepFirst(s: State, i: nat, a: Action, run: seq<State>)
    requires Steps(run) && Does(s, run[0], i, a)
    ensures Steps([s] + run)
  {
    hide Does;
    var longer := [s] + run;
    assert Next(s, run[0]);
    forall k | 0 <= k < |longer| - 1 ensures Next(longer[k], longer[k + 1]) {
      if k > 0 {
        assert Next(run[k - 1], run[k]);
      }
    }
  }

  /** Where a call that holds the mutex ends. */
  function Released(s: State, i: nat, op: Op, log: seq<Printed>): State
    requires i < |s.writers|
  {
    var w := s.writers[i];
    var held := w.(phase := Holding(op));
    Set(s, i, w.(buf := Waiting(held), phase := Idle))
      .(lock := None, sinks := Out(s.sinks, w.sink, PrefixedLines(w.prefix, Pending(held))), log := log)
  }

  lemma {:induction false} PrintsPending(s: State, i: nat, op: Op) returns (run: seq<State>)
    requires i < |s.writers| && s.lock == Some(i) && s.writers[i].phase == Holding(op)
    ensures run != [] && Steps(run) && run[0] == s && run[|run| - 1] == Released(s, i, op, run[|run| - 1].log)
    decreases |s.writers[i].buf|
  {
    hide Does, Steps, Released, HasLine, AfterLine, NextLine;
    var w := s.writers[i];
    if HasLine(w) {
      var s1, s2 := PrintsOne(s, i, op);
      var more := PrintsPending(s2, i, op);
      StepFirst(s1, i, DoLine, more);
      StepFirst(s, i, DoPrefix, [s1] + more);
      run := [s] + ([s1] + more);
      assert run[|run| - 1] == more[|more| - 1];
      OneLineMore(s, s2, i, op, run[|run| - 1].log);
    } else {
      run := ReleasesAtOnce(s, i, op);
    }
  }

  lemma PrintsOne(s: State, i: nat, op: Op) returns (s1: State, s2: State)
    requires i < |s.writers| && s.lock == Some(i) && s.writers[i].phase == Holding(op) && HasLine(s.writers[i])
    ensures Does(s, s1, i, DoPrefix) && Does(s1, s2, i, DoLine)
    ensures var w := s.writers[i];
      && s2 == Set(s, i, w.(buf := AfterLine(w))).(sinks := Out(Out(s.sinks, w.sink, w.prefix), w.sink, NextLine(w) + [NEWLINE]), log := s2.log)
      && |AfterLine(w)| < |w.buf|
  {
    var w := s.writers[i];
    LineShortens(w, op);
    hide HasLine, AfterLine, NextLine;
    s1 := Set(s, i, w.(phase := Printing(op))).(sinks := Out(s.sinks, w.sink, w.prefix));
    var w1 := s1.writers[i];
    s2 := Set(s1, i, w1.(buf := AfterLine(w1), phase := Holding(op)))
      .(sinks := Out(s1.sinks, w1.sink, NextLine(w1) + [NEWLINE]), log := s1.log + [Printed(i, NextLine(w1))]);
  }

  lemma ReleasesAtOnce(s: State, i: nat, op: Op) returns (run: seq<State>)
    requires i < |s.writers| && s.writers[i].phase == Holding(op) && !HasLine(s.writers[i])
    ensures run != [] && Steps(run) && run[0] == s && run[|run| - 1] == Released(s, i, op, run[|run| - 1].log)
  {
    var w := s.writers[i];
    NothingPending(w, op);
    hide HasLine, Pending, Waiting;
    run := [s, Set(s, i, w.(phase := Idle)).(lock := None)];
    assert Next(s, run[1]) by { assert Does(s, run[1], i, DoRelease); }
    OutNothing(s.sinks, w.sink);
  }

  lemma OutNothing(sinks: seq<Bytes>, k: nat)
    ensures Out(sinks, k, []) == sinks
  {
    if k < |sinks| {
      assert sinks[k] + [] == sinks[k];
    }
  }

  lemma OutTwice(sinks: seq<Bytes>, k: nat, a: Bytes, b: Bytes)
    ensures Out(Out(sinks, k, a), k, b) == Out(sinks, k, a + b)
  {
    if k < |sinks| {
      assert (sinks[k] + a) + b == sinks[k] + (a + b);
    }
  }

  lemma LineShortens(w: Writer, op: Op)
    requires w.phase == Holding(op) && HasLine(w)
    ensures var p := w.(phase := Printing(op));
      && HasLine(p) && NextLine(p) == NextLine(w) && AfterLine(p) == AfterLine(w) && |AfterLine(w)| < |w.buf|
  {
  }

  lemma NothingPending(w: Writer, op: Op)
    requires w.phase == Holding(op) && !HasLine(w)
    ensures Pending(w) == [] && Waiting(w) == w.buf
  {
  }

  lemma PendingStep(w: Writer, op: Op)
    requires w.phase == Holding(op) && HasLine(w)
    ensures var v := w.(buf := AfterLine(w));
      Pending(w) == [NextLine(w)] + Pending(v) && Waiting(w) == Waiting(v)
  {
  }

  lemma OneLineMore(s: State, s2: State, i: nat, op: Op, log: seq<Printed>)
    requires i < |s.writers| && s.writers[i].phase == Holding(op) && HasLine(s.writers[i])
    requires var w := s.writers[i];
      s2 == Set(s, i, w.(buf := AfterLine(w)))
              .(sinks := Out(Out(s.sinks, w.sink, w.prefix), w.sink, NextLine(w) + [NEWLINE]), log := s2.log)
    ensures Released(s2, i, op, log) == Released(s, i, op, log)
  {
    hide Pending, Waiting, HasLine, NextLine, AfterLine, Out;
    var w := s.writers[i];
    var v := w.(buf := AfterLine(w));
    assert s2.writers[i] == v;
    PendingStep(w, op);
    var line, more := NextLine(w), PrefixedLines(w.prefix, Pending(v));
    assert ([line] + Pending(v))[1..] == Pending(v);
    OutTwice(s.sinks, w.sink, w.prefix, line + [NEWLINE]);
    OutTwice(s.sinks, w.sink, PrefixedLine(w.prefix, line), more);
    assert Set(s2, i, w).writers == Set(s, i, w).writers;
    assert s2.writers[i := v.(buf := Waiting(v.(phase := Holding(op))), phase := Idle)]
        == s.writers[i := w.(buf := Waiting(w.(phase := Holding(op))), phase := Idle)];
  }

  /** A call that nobody disturbs, as steps: it ends with the sink and the buffer that the writer's method states. */
  lemma CallAlone(s: State, i: nat, op: Op) returns (run: seq<State>)
    requires i < |s.writers| && s.lock == None && s.writers[i].phase == Idle
    ensures Steps(run) && run[0] == s && |run[|run| - 1].writers| == |s.writers|
    ensures var w, v, t := s.writers[i], run[|run| - 1].writers[i], run[|run| - 1];
      && t.lock == None && v.phase == Idle
      && match op
         case Write(chunk) =>
           && v.buf == Fragment(w.buf + chunk)
           && t.sinks == Out(s.sinks, w.sink, PrefixedLines(w.prefix, Complete(w.buf + chunk)))
         case Flush =>
           && v.buf == []
           && t.sinks == Out(s.sinks, w.sink, if w.buf == [] then [] else PrefixedLine(w.prefix, w.buf))
  {
    var w := s.writers[i];
    var buf := match op case Write(chunk) => w.buf + chunk case Flush => w.buf;
    var held := Set(s, i, w.(buf := buf, phase := Holding(op), ops := w.ops + [op])).(lock := Some(i));
    var rest := PrintsPending(held, i, op);
    StepFirst(s, i, DoAcquire(op), rest);
    run := [s] + rest;
    OneLine(w.prefix, w.buf);
  }

  lemma OneLine(prefix: Bytes, line: Bytes)
    ensures PrefixedLines(prefix, []) == [] && PrefixedLines(prefix, [line]) == PrefixedLine(prefix, line)
  {
    assert [line][1..] == [];
    assert PrefixedLine(prefix, line) + [] == PrefixedLine(prefix, line);
  }
}
