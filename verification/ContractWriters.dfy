/** The two writers behind the JSON envelope of a verb (go/cmd/evolve/cli_contract.go): one remembers the last
    error line of stderr, the other wraps each JSON line of stdout in an envelope. */
module ContractWriters {
  import opened Base
  import opened Lines

  const WARN: Bytes := [87, 65, 82, 78]
  const USAGE: Bytes := [117, 115, 97, 103, 101, 58]
  const COLON: byte := 58
  const BLANK: byte := 32
  const TAB: byte := 9

  predicate Contains(s: Bytes, w: Bytes) {
    w <= s || (s != [] && Contains(s[1..], w))
  }

  /** How the process trims a line; an empty line stays empty. */
  type Trim = f: Bytes -> Bytes | f([]) == [] witness (s: Bytes) => s

  /** The message that a line of stderr carries, if it carries one. */
  function Noted(line: Bytes, trim: Trim): Option<Bytes> {
    var t := trim(line);
    var indented := line != [] && (line[0] == BLANK || line[0] == TAB);
    if t == [] || indented || t[|t| - 1] == COLON || Contains(t, WARN) || USAGE <= t then None else Some(t)
  }

  lemma {:induction false} ContainsMeans(s: Bytes, w: Bytes)
    ensures Contains(s, w) <==> exists k :: 0 <= k <= |s| && w <= s[k..]
  {
    if w <= s {
      assert s[0..] == s;
    } else if s != [] {
      ContainsMeans(s[1..], w);
      if Contains(s[1..], w) {
        var k :| 0 <= k <= |s[1..]| && w <= s[1..][k..];
        assert s[1..][k..] == s[k + 1..];
      }
      forall k | 0 <= k <= |s| && w <= s[k..] ensures Contains(s[1..], w) {
        assert s[0..] == s;
        assert s[1..][k - 1..] == s[k..];
      }
    } else {
      assert s[0..] == s;
    }
  }

  /** A line carries its trimmed text as a message unless that is empty, the line begins with a space or a tab, or the
      text ends with a colon, has WARN in it anywhere, or begins with usage and a colon. */
  lemma NotedExactly(line: Bytes, trim: Trim)
    ensures var t := trim(line);
      && (Noted(line, trim).Some? ==> Noted(line, trim) == Some(t))
      && (Noted(line, trim).Some? <==>
            && t != [] && t[|t| - 1] != 58
            && (line != [] ==> line[0] != 32 && line[0] != 9)
            && (forall k :: 0 <= k <= |t| ==> !([87, 65, 82, 78] <= t[k..]))
            && !([117, 115, 97, 103, 101, 58] <= t))
  {
    ContainsMeans(trim(line), WARN);
  }

  /** The message of the last line that carries one, or `message`. */
  function LastNoted(lines: seq<Bytes>, trim: Trim, message: Bytes): Bytes {
    if lines == [] then message
    else
      match Noted(lines[|lines| - 1], trim)
      case Some(t) => t
      case None => LastNoted(lines[..|lines| - 1], trim, message)
  }

  lemma LastNotedSnoc(lines: seq<Bytes>, line: Bytes, trim: Trim)
    ensures LastNoted(lines + [line], trim, []) == match Noted(line, trim)
      case Some(t) => t
      case None => LastNoted(lines, trim, [])
  {
    assert (lines + [line])[..|lines|] == lines;
  }

  class ErrorLineWriter {
    const trim: Trim
    var stderr: Bytes
    var pending: Bytes
    var line: Bytes

    /** Every byte written so far. */
    ghost var written: Bytes

    ghost predicate Valid()
      reads this
    {
      && stderr == written
      && pending == Fragment(written)
      && line == LastNoted(Complete(written), trim, [])
    }

    constructor (trim: Trim)
      ensures Valid() && written == [] && this.trim == trim
    {
      this.trim := trim;
      stderr, pending, line, written := [], [], [], [];
    }

    method Note(text: Bytes)
      modifies this`line
      ensures line == match Noted(text, trim) case Some(t) => t case None => old(line)
    {
      match Noted(text, trim)
      case Some(t) => line := t;
      case None =>
    }

    method Write(p: Bytes)
      requires Valid()
      modifies this
      ensures Valid() && written == old(written) + p
    {
      hide Complete, Fragment, NewlineIndex, LastNoted, Noted;
      ghost var done := Complete(written);
      SplitAppend(written, p);
      written := written + p;
      pending := pending + p;
      var i := NewlineIndex(pending);
      while i >= 0
        invariant i == NewlineIndex(pending)
        invariant written == old(written) + p && stderr == old(stderr)
        invariant line == LastNoted(done, trim, [])
        invariant done + Complete(pending) == Complete(written) && Fragment(pending) == Fragment(written)
        decreases |pending|
      {
        PeelLine(done, pending);
        LastNotedSnoc(done, pending[..i], trim);
        done := done + [pending[..i]];
        Note(pending[..i]);
        pending := pending[i + 1..];
        i := NewlineIndex(pending);
      }
      NothingToPeel(done, pending);
      stderr := stderr + p;
    }

    /** The last line of the whole stream, its fragment included, that carries a message. */
    method Message() returns (message: Bytes)
      requires Valid()
      modifies this`pending, this`line
      ensures message == LastNoted(All(written), trim, [])
    {
      LastNotedSnoc(Complete(written), pending, trim);
      Note(pending);
      pending := [];
      message := line;
    }
  }

  // ---------------------------------------------------------------- envelopes

  /** What a stream of stdout lines turns into: the data of each envelope, the text sent to stderr, and
      whether stdout broke. */
  datatype Outcome = Outcome(envelopes: seq<Bytes>, text: Bytes, broken: bool)

  /** How stdout behaves: it takes `room` envelopes, or any number of them. */
  type Room = Option<nat>

  predicate Takes(room: Room, written: nat) { room.Some? ==> written < room.value }

  /** One line: blank lines vanish, JSON goes into an envelope, other text goes to stderr. After stdout broke
      nothing happens any more. */
  function EmitLine(o: Outcome, line: Bytes, trim: Trim, isJson: Bytes -> bool, room: Room): Outcome {
    var t := trim(line);
    if o.broken || t == [] then o
    else if !isJson(t) then o.(text := o.text + (t + [NEWLINE]))
    else if Takes(room, |o.envelopes|) then o.(envelopes := o.envelopes + [t])
    else o.(broken := true)
  }

  function EmitLines(lines: seq<Bytes>, trim: Trim, isJson: Bytes -> bool, room: Room): Outcome {
    if lines == [] then Outcome([], [], false)
    else EmitLine(EmitLines(lines[..|lines| - 1], trim, isJson, room), lines[|lines| - 1], trim, isJson, room)
  }

  lemma EmitLinesSnoc(lines: seq<Bytes>, line: Bytes, trim: Trim, isJson: Bytes -> bool, room: Room)
    ensures EmitLines(lines + [line], trim, isJson, room) == EmitLine(EmitLines(lines, trim, isJson, room), line, trim, isJson, room)
  {
    assert (lines + [line])[..|lines|] == lines;
  }

  /** The lines that hold JSON, trimmed. */
  function JsonLines(lines: seq<Bytes>, trim: Trim, isJson: Bytes -> bool): seq<Bytes> {
    if lines == [] then []
    else
      var t := trim(lines[|lines| - 1]);
      JsonLines(lines[..|lines| - 1], trim, isJson) + (if t != [] && isJson(t) then [t] else [])
  }

  function OtherText(lines: seq<Bytes>, trim: Trim, isJson: Bytes -> bool): Bytes {
    if lines == [] then []
    else
      var t := trim(lines[|lines| - 1]);
      OtherText(lines[..|lines| - 1], trim, isJson) + (if t != [] && !isJson(t) then t + [NEWLINE] else [])
  }

  /** With a working stdout each JSON line gives one envelope, in order, and all other text reaches stderr.
      Otherwise the envelopes are the first ones that stdout takes, and it is reported broken exactly when
      there is one more. */
  lemma {:induction false} EmitLinesSorts(lines: seq<Bytes>, trim: Trim, isJson: Bytes -> bool, room: Room)
    ensures var o, json := EmitLines(lines, trim, isJson, room), JsonLines(lines, trim, isJson);
      && o.broken == !(room.Some? ==> |json| <= room.value)
      && o.envelopes == (if o.broken then json[..room.value] else json)
      && (!o.broken ==> o.text == OtherText(lines, trim, isJson))
  {
    if lines != [] {
      EmitLinesSorts(lines[..|lines| - 1], trim, isJson, room);
    }
  }

  class EnvelopeLineWriter {
    const trim: Trim
    const isJson: Bytes -> bool
    const room: Room
    var pending: Bytes
    var emitted: nat
    var err: bool
    var stdout: seq<Bytes>
    var stderr: Bytes

    /** Every byte written so far. */
    ghost var written: Bytes

    function Result(): Outcome
      reads this
    {
      Outcome(stdout, stderr, err)
    }

    ghost predicate Valid()
      reads this
    {
      && Result() == EmitLines(Complete(written), trim, isJson, room)
      && emitted == |stdout|
      && (!err ==> pending == Fragment(written))
    }

    constructor (trim: Trim, isJson: Bytes -> bool, room: Room)
      ensures Valid() && written == []
      ensures this.trim == trim && this.isJson == isJson && this.room == room
    {
      this.trim, this.isJson, this.room := trim, isJson, room;
      pending, emitted, err, stdout, stderr, written := [], 0, false, [], [], [];
    }

    method Emit(line: Bytes)
      requires !err && emitted == |stdout|
      modifies this`stdout, this`stderr, this`emitted, this`err
      ensures Result() == EmitLine(old(Result()), line, trim, isJson, room) && emitted == |stdout|
    {
      var t := trim(line);
      if t == [] { return; }
      if !isJson(t) {
        stderr := stderr + (t + [NEWLINE]);
        return;
      }
      if !Takes(room, |stdout|) {
        err := true;
        return;
      }
      stdout := stdout + [t];
      emitted := emitted + 1;
    }

    method Write(p: Bytes)
      requires Valid()
      modifies this
      ensures Valid() && written == old(written) + p
    {
      hide Complete, Fragment, NewlineIndex, EmitLine, EmitLines;
      ghost var done := Complete(written);
      SplitAppend(written, p);
      ghost var more := Complete(Fragment(written) + p);
      written := written + p;
      pending := pending + p;
      if err {
        StaysBroken(done, more);
        return;
      }
      var i := NewlineIndex(pending);
      while !err && i >= 0
        invariant !err ==> i == NewlineIndex(pending) && Fragment(pending) == Fragment(written)
        invariant written == old(written) + p && emitted == |stdout|
        invariant Result() == EmitLines(done, trim, isJson, room)
        invariant done + Complete(pending) == Complete(written)
        decreases |pending|
      {
        var line := pending[..i];
        PeelLine(done, pending);
        EmitLinesSnoc(done, line, trim, isJson, room);
        done := done + [line];
        pending := pending[i + 1..];
        Emit(line);
        i := NewlineIndex(pending);
      }
      if err {
        StaysBroken(done, Complete(pending));
      } else {
        NothingToPeel(done, pending);
      }
    }

    lemma {:induction false} StaysBroken(done: seq<Bytes>, more: seq<Bytes>)
      requires EmitLines(done, trim, isJson, room).broken
      ensures EmitLines(done + more, trim, isJson, room) == EmitLines(done, trim, isJson, room)
    {
      if more == [] {
        assert done + more == done;
      } else {
        var front := more[..|more| - 1];
        StaysBroken(done, front);
        assert done + more == (done + front) + [more[|more| - 1]];
        EmitLinesSnoc(done + front, more[|more| - 1], trim, isJson, room);
      }
    }

    /** At the end of the stream the fragment counts as a line. */
    method Flush()
      requires Valid()
      modifies this
      ensures Result() == EmitLines(All(old(written)), trim, isJson, room) && emitted == |stdout|
      ensures written == old(written)
    {
      if !err {
        EmitLinesSnoc(Complete(written), pending, trim, isJson, room);
        Emit(pending);
      } else {
        StaysBroken(Complete(written), [Fragment(written)]);
      }
      pending := [];
    }
  }

  // ---------------------------------------------------------------- the streaming verb

  const EXIT_OK := 0
  const EXIT_IO := 2

  datatype Chunk = Stdout(bytes: Bytes) | Stderr(bytes: Bytes)

  function OutputOf(chunks: seq<Chunk>): Bytes {
    if chunks == [] then []
    else OutputOf(chunks[..|chunks| - 1]) + (match chunks[|chunks| - 1] case Stdout(b) => b case Stderr(_) => [])
  }

  function ErrorsOf(chunks: seq<Chunk>): Bytes {
    if chunks == [] then []
    else ErrorsOf(chunks[..|chunks| - 1]) + (match chunks[|chunks| - 1] case Stdout(_) => [] case Stderr(b) => b)
  }

  datatype ErrorPart = ErrorPart(code: int, kind: string, message: Bytes)

  /** The envelope that closes a stream, if one is due: its error, when the verb failed, and whether it warns of an exit
      code that the verb's table does not list. */
  datatype Closing = NoClosing | Closing(error: Option<ErrorPart>, warns: bool)

  const UNLISTED := "unlisted"

  /** A verb's exit table, and the message of an error that left none. */
  datatype Exits = Exits(kinds: int -> Option<string>, plain: (int, string) -> Bytes)

  function ClosingOf(rc: int, message: Bytes, exits: Exits): Closing {
    if rc == EXIT_OK then Closing(None, false)
    else
      var listed := exits.kinds(rc);
      var kind := if listed.Some? then listed.value else UNLISTED;
      Closing(Some(ErrorPart(rc, kind, if message == [] then exits.plain(rc, kind) else message)), listed == None)
  }

  /** What a closing envelope says: no error exactly for exit code 0; else the code, the kind that the table lists for
      it, and the last message, or the table's text where there was none. It warns of a code that is not listed. */
  ghost predicate Closes(c: Closing, rc: int, message: Bytes, exits: Exits) {
    && c.Closing?
    && (rc == 0 ==> c.error == None && !c.warns)
    && (rc != 0 ==>
          && c.error.Some? && c.error.value.code == rc && (c.warns <==> exits.kinds(rc) == None)
          && c.error.value.kind == (if c.warns then "unlisted" else exits.kinds(rc).value)
          && c.error.value.message == (if message != [] then message else exits.plain(rc, c.error.value.kind)))
  }

  function Max(a: int, b: int): int { if a < b then b else a }

  /** On a working stdout the data envelopes are the JSON lines of the stream, and the other lines that are not
      blank reach stderr. */
  lemma WorkingStdout(output: Bytes, trim: Trim, isJson: Bytes -> bool)
    ensures var o := EmitLines(All(output), trim, isJson, None);
      !o.broken && o.envelopes == JsonLines(All(output), trim, isJson) && o.text == OtherText(All(output), trim, isJson)
  {
    EmitLinesSorts(All(output), trim, isJson, None);
  }

  /** A streaming verb run behind the envelope writer: its data envelopes, the closing one, the exit code, and what
      reaches stderr: the text that was no JSON, and all that the verb itself wrote there. The result depends on the
      two byte streams and the exit code, not on the chunks. */
  method RunStream(chunks: seq<Chunk>, rc: int, trim: Trim, isJson: Bytes -> bool, room: Room, exits: Exits)
    returns (data: seq<Bytes>, closing: Closing, exit: int, text: Bytes, errors: Bytes)
    ensures var o := EmitLines(All(OutputOf(chunks)), trim, isJson, room);
      && data == o.envelopes && text == o.text && errors == ErrorsOf(chunks)
      && var due := !o.broken && !(rc == 0 && o.envelopes != []);
      && (closing.Closing? <==> due && (room.Some? ==> |o.envelopes| < room.value))
      && (closing.Closing? ==> Closes(closing, rc, LastNoted(All(ErrorsOf(chunks)), trim, []), exits))
      && exit == (if (o.broken || (due && closing == NoClosing)) && rc < 2 then 2 else rc)
  {
    var lines := new EnvelopeLineWriter(trim, isJson, room);
    var errs := new ErrorLineWriter(trim);
    for n := 0 to |chunks|
      invariant fresh(lines) && fresh(errs) && lines.Valid() && errs.Valid()
      invariant lines.written == OutputOf(chunks[..n]) && errs.written == ErrorsOf(chunks[..n])
    {
      assert chunks[..n + 1][..n] == chunks[..n];
      match chunks[n]
      case Stdout(b) =>
        lines.Write(b);
        assert errs.written + [] == errs.written;
      case Stderr(b) =>
        errs.Write(b);
        assert lines.written + [] == lines.written;
    }
    assert chunks[..|chunks|] == chunks;
    lines.Flush();
    data, closing, exit, text, errors := lines.stdout, NoClosing, rc, lines.stderr, errs.stderr;
    if lines.err {
      exit := Max(rc, EXIT_IO);
      return;
    }
    if rc == EXIT_OK && lines.emitted > 0 {
      return;
    }
    var message := errs.Message();
    if Takes(room, |data|) {
      closing := ClosingOf(rc, message, exits);
    } else {
      exit := Max(rc, EXIT_IO);
    }
  }
}
