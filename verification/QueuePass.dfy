/** What one pass over the loaded requests does to the queue directory (go/cmd/evolve/cli_queue.go). */
module QueuePass {
  import opened Base
  import opened QueueProtocol
  import opened QueueListing

  /** What one pass finds: for each request the exit code of its verb and the request that the verb itself queues, if
      it does (a verb that finds a live lane queues itself again), and which renames fail. */
  datatype World = World(exit: Name -> int, queues: Name -> Option<Entry>, claimFails: Name -> bool, settleFails: Name -> bool)

  function ExitOf(l: Listing, w: World): int { if l.runnable then w.exit(l.name) else EXIT_INPUT }

  /** The shelf a request ends on: one that cannot be run fails; else 0 is applied, 4 is requeued, and any other code
      fails. */
  ghost function EndOf(l: Listing, w: World): Shelf {
    if !l.runnable then Failed
    else if w.exit(l.name) == 0 then Applied
    else if w.exit(l.name) == 4 then Requeued
    else Failed
  }

  lemma EndOfExit(l: Listing, w: World)
    ensures ShelfFor(ExitOf(l, w)) == EndOf(l, w) && (ExitOf(l, w) == EXIT_OK <==> EndOf(l, w) == Applied)
  {
  }

  /** The request that a listed request's verb writes while it runs. */
  function QueuedBy(l: Listing, w: World): Option<Entry> { if l.runnable then w.queues(l.name) else None }

  function NewPaths(l: Listing, w: World): set<Path> {
    if QueuedBy(l, w).Some? then {Path(Queued, QueuedBy(l, w).value.name)} else {}
  }

  predicate Claims(files: set<Path>, l: Listing, w: World) { !w.claimFails(l.name) && Path(Queued, l.name) in files }

  /** The directory after one request has been worked off. */
  function AfterOne(files: set<Path>, l: Listing, w: World): set<Path> {
    if !Claims(files, l, w) then files
    else
      var end := if w.settleFails(l.name) then Processing else ShelfFor(ExitOf(l, w));
      files - {Path(Queued, l.name), Path(Processing, l.name)} + NewPaths(l, w) + {Path(end, l.name)}
  }

  /** The directory after the requests of a listing have been worked off, one after the other. */
  function PathsAfter(files: set<Path>, ls: seq<Listing>, w: World): set<Path> {
    if ls == [] then files else AfterOne(PathsAfter(files, ls[..|ls| - 1], w), ls[|ls| - 1], w)
  }

  /** The verbs that run, in order. */
  function VerbsRun(files: set<Path>, ls: seq<Listing>, w: World): seq<Name> {
    if ls == [] then []
    else
      var front, l := ls[..|ls| - 1], ls[|ls| - 1];
      VerbsRun(files, front, w) + (if Claims(PathsAfter(files, front, w), l, w) && l.runnable then [l.name] else [])
  }

  function CountApplied(files: set<Path>, ls: seq<Listing>, w: World): nat {
    if ls == [] then 0
    else
      var front, l := ls[..|ls| - 1], ls[|ls| - 1];
      CountApplied(files, front, w) + (if Claims(PathsAfter(files, front, w), l, w) && ExitOf(l, w) == EXIT_OK then 1 else 0)
  }

  // ---------------------------------------------------------------- fresh names

  ghost predicate Absent(files: set<Path>, name: Name) { forall sh :: Path(sh, name) !in files }

  predicate OtherName(l: Listing, k: Listing, w: World) {
    QueuedBy(l, w).Some? && QueuedBy(k, w).Some? ==> QueuedBy(l, w).value.name != QueuedBy(k, w).value.name
  }

  /** A request that a verb queues has a new name: no file has it, and no other verb of the pass takes it. */
  ghost predicate FreshNames(files: set<Path>, ls: seq<Listing>, w: World) {
    && (forall i :: 0 <= i < |ls| && QueuedBy(ls[i], w).Some? ==> Absent(files, QueuedBy(ls[i], w).value.name))
    && (forall i, j :: 0 <= i < j < |ls| ==> OtherName(ls[i], ls[j], w))
  }

  /** A name that is new to the directory and not taken by the verbs of a pass is new after the pass. */
  lemma {:induction false} StaysAbsent(files: set<Path>, ls: seq<Listing>, w: World, name: Name)
    requires Absent(files, name)
    requires forall i :: 0 <= i < |ls| && QueuedBy(ls[i], w).Some? ==> QueuedBy(ls[i], w).value.name != name
    ensures Absent(PathsAfter(files, ls, w), name)
  {
    if ls != [] {
      var front, l := ls[..|ls| - 1], ls[|ls| - 1];
      StaysAbsent(files, front, w, name);
      AbsentAfterOne(PathsAfter(files, front, w), l, w, name);
    }
  }

  lemma AbsentAfterOne(files: set<Path>, l: Listing, w: World, name: Name)
    requires Absent(files, name) && (QueuedBy(l, w).Some? ==> QueuedBy(l, w).value.name != name)
    ensures Absent(AfterOne(files, l, w), name)
  {
    hide QueuedBy, ShelfFor, ExitOf;
    assert Path(Queued, name) !in files;
    forall sh ensures Path(sh, name) !in AfterOne(files, l, w) {
      assert Path(sh, name) !in files;
    }
  }

  // ---------------------------------------------------------------- a pass without rename errors

  predicate NoErrors(w: World, ls: seq<Listing>) {
    forall i :: 0 <= i < |ls| ==> !w.claimFails(ls[i].name) && !w.settleFails(ls[i].name)
  }

  /** The listed requests are on the queue shelf, and on no other. */
  ghost predicate OnlyQueued(files: set<Path>, ls: seq<Listing>) {
    forall i, sh :: 0 <= i < |ls| ==> (Path(sh, ls[i].name) in files <==> sh == Queued)
  }

  ghost predicate Ready(files: set<Path>, ls: seq<Listing>, w: World) {
    NoErrors(w, ls) && Distinct(ls) && OnlyQueued(files, ls) && FreshNames(files, ls, w)
  }

  function Runnable(ls: seq<Listing>): seq<Name> {
    if ls == [] then []
    else Runnable(ls[..|ls| - 1]) + (if ls[|ls| - 1].runnable then [ls[|ls| - 1].name] else [])
  }

  /** How many requests of the listing exit without an error. */
  function Successes(ls: seq<Listing>, w: World): nat {
    if ls == [] then 0
    else Successes(ls[..|ls| - 1], w) + (if ls[|ls| - 1].runnable && w.exit(ls[|ls| - 1].name) == 0 then 1 else 0)
  }

  /** A path that the verbs of the pass have written. */
  ghost predicate Written(ls: seq<Listing>, w: World, p: Path) { exists i :: 0 <= i < |ls| && p in NewPaths(ls[i], w) }

  lemma ReadyFront(files: set<Path>, ls: seq<Listing>, w: World)
    requires Ready(files, ls, w) && ls != []
    ensures Ready(files, ls[..|ls| - 1], w) && NotListed(ls[..|ls| - 1], ls[|ls| - 1].name)
  {
    hide QueuedBy, Absent, OtherName;
  }

  lemma WrittenSnoc(ls: seq<Listing>, w: World, p: Path)
    requires ls != []
    ensures Written(ls, w, p) <==> Written(ls[..|ls| - 1], w, p) || p in NewPaths(ls[|ls| - 1], w)
  {
    hide NewPaths;
    var front := ls[..|ls| - 1];
    assert forall i :: 0 <= i < |front| ==> front[i] == ls[i];
  }

  /** A written path is on no listed request's name. */
  lemma WrittenIsNew(files: set<Path>, ls: seq<Listing>, w: World, p: Path, i: nat)
    requires Ready(files, ls, w) && i < |ls| && Written(ls, w, p)
    ensures p.name != ls[i].name && p !in files
  {
    var k :| 0 <= k < |ls| && p in NewPaths(ls[k], w);
    assert Absent(files, p.name);
    assert Path(Queued, ls[i].name) in files;
  }

  /** The directory away from the listed names: as it was, and the requests that the verbs have written. */
  lemma {:induction false} OthersStay(files: set<Path>, ls: seq<Listing>, w: World, p: Path)
    requires Ready(files, ls, w) && NotListed(ls, p.name)
    ensures p in PathsAfter(files, ls, w) <==> p in files || Written(ls, w, p)
    decreases |ls|, 1
  {
    hide Ready, Written;
    if ls != [] {
      var front, l := ls[..|ls| - 1], ls[|ls| - 1];
      ReadyFront(files, ls, w);
      OthersStay(files, front, w, p);
      LastClaims(files, ls, w);
      WrittenSnoc(ls, w, p);
      hide PathsAfter;
      AfterOneElsewhere(PathsAfter(files, front, w), l, w, p);
    } else {
      assert !Written([], w, p) by { NothingWritten(w, p); }
    }
  }

  lemma NothingWritten(w: World, p: Path)
    ensures !Written([], w, p)
  {
  }

  lemma AfterOneElsewhere(files: set<Path>, l: Listing, w: World, p: Path)
    requires Claims(files, l, w) && p.name != l.name
    ensures p in AfterOne(files, l, w) <==> p in files || p in NewPaths(l, w)
  {
    hide ShelfFor, ExitOf, NewPaths;
  }

  /** When its turn comes the last request is on the queue shelf and on no other. */
  lemma {:induction false} LastClaims(files: set<Path>, ls: seq<Listing>, w: World)
    requires Ready(files, ls, w) && ls != []
    ensures var before, l := PathsAfter(files, ls[..|ls| - 1], w), ls[|ls| - 1];
      PathsAfter(files, ls, w) == AfterOne(before, l, w) && Claims(before, l, w) && OnlyQueued(before, [l])
    decreases |ls|, 0
  {
    var front, l := ls[..|ls| - 1], ls[|ls| - 1];
    ReadyFront(files, ls, w);
    forall sh ensures Path(sh, l.name) in PathsAfter(files, front, w) <==> sh == Queued {
      OthersStay(files, front, w, Path(sh, l.name));
      if Written(front, w, Path(sh, l.name)) {
        assert Written(ls, w, Path(sh, l.name)) by { WrittenSnoc(ls, w, Path(sh, l.name)); }
        WrittenIsNew(files, ls, w, Path(sh, l.name), |ls| - 1);
      }
      assert Path(sh, ls[|ls| - 1].name) in files <==> sh == Queued;
    }
  }

  lemma AfterOneHere(files: set<Path>, l: Listing, w: World, sh: Shelf)
    requires Claims(files, l, w) && OnlyQueued(files, [l]) && !w.settleFails(l.name)
    requires QueuedBy(l, w).Some? ==> QueuedBy(l, w).value.name != l.name
    ensures Path(sh, l.name) in AfterOne(files, l, w) <==> sh == ShelfFor(ExitOf(l, w))
  {
    hide ShelfFor, ExitOf, QueuedBy;
    assert Path(sh, [l][0].name) in files <==> sh == Queued;
  }

  /** Every listed request is on the shelf of its exit code, and on no other. */
  lemma {:induction false} ListedGo(files: set<Path>, ls: seq<Listing>, w: World, i: nat, sh: Shelf)
    requires Ready(files, ls, w) && i < |ls|
    ensures Path(sh, ls[i].name) in PathsAfter(files, ls, w) <==> sh == ShelfFor(ExitOf(ls[i], w))
  {
    var m := |ls| - 1;
    var front, l := ls[..m], ls[m];
    var before := PathsAfter(files, front, w);
    LastClaims(files, ls, w);
    ReadyFront(files, ls, w);
    assert QueuedBy(l, w).Some? ==> Written(ls, w, Path(Queued, QueuedBy(l, w).value.name)) by {
      if QueuedBy(l, w).Some? {
        assert Path(Queued, QueuedBy(l, w).value.name) in NewPaths(ls[m], w);
      }
    }
    if QueuedBy(l, w).Some? {
      WrittenIsNew(files, ls, w, Path(Queued, QueuedBy(l, w).value.name), i);
    }
    hide PathsAfter, ShelfFor, ExitOf, QueuedBy, Ready, Written;
    if i == m {
      NoErrorsAt(files, ls, w, m);
      AfterOneHere(before, l, w, sh);
    } else {
      assert front[i] == ls[i];
      ListedGo(files, front, w, i, sh);
      AfterOneElsewhere(before, l, w, Path(sh, ls[i].name));
    }
  }

  lemma NoErrorsAt(files: set<Path>, ls: seq<Listing>, w: World, i: nat)
    requires Ready(files, ls, w) && i < |ls|
    ensures !w.settleFails(ls[i].name)
  {
  }

  lemma {:induction false} AllRun(files: set<Path>, ls: seq<Listing>, w: World)
    requires Ready(files, ls, w)
    ensures VerbsRun(files, ls, w) == Runnable(ls) && CountApplied(files, ls, w) == Successes(ls, w)
  {
    hide Ready, PathsAfter, AfterOne, Claims, OnlyQueued;
    if ls != [] {
      ReadyFront(files, ls, w);
      AllRun(files, ls[..|ls| - 1], w);
      LastClaims(files, ls, w);
    }
  }

  /** Without rename errors every loaded request leaves the queue for the shelf its exit code names; the rest of the
      directory is as it was, but for the requests that the verbs have queued; and the verbs run in the order of the
      listing. */
  lemma PassEmptiesQueue(files: set<Path>, ls: seq<Listing>, w: World)
    requires Ready(files, ls, w)
    ensures var after := PathsAfter(files, ls, w);
      && (forall i, sh :: 0 <= i < |ls| ==> (Path(sh, ls[i].name) in after <==> sh == EndOf(ls[i], w)))
      && (forall p: Path :: NotListed(ls, p.name) ==> (p in after <==> p in files || Written(ls, w, p)))
    ensures VerbsRun(files, ls, w) == Runnable(ls) && CountApplied(files, ls, w) == Successes(ls, w)
  {
    hide Ready, PathsAfter, Written, NotListed, ShelfFor, ExitOf, EndOf;
    forall i, sh | 0 <= i < |ls|
      ensures Path(sh, ls[i].name) in PathsAfter(files, ls, w) <==> sh == EndOf(ls[i], w)
    {
      EndOfExit(ls[i], w);
      ListedGo(files, ls, w, i, sh);
    }
    forall p: Path | NotListed(ls, p.name)
      ensures p in PathsAfter(files, ls, w) <==> p in files || Written(ls, w, p)
    {
      OthersStay(files, ls, w, p);
    }
    AllRun(files, ls, w);
  }

  /** A request that a live lane held up is not lost: the one that its verb queued for it waits in the queue. */
  lemma RequeuedIsQueuedAgain(files: set<Path>, ls: seq<Listing>, w: World, i: nat)
    requires Ready(files, ls, w) && i < |ls| && ls[i].runnable && w.exit(ls[i].name) == 4
    requires forall n :: w.exit(n) == 4 ==> w.queues(n).Some?
    ensures Path(Requeued, ls[i].name) in PathsAfter(files, ls, w)
    ensures QueuedBy(ls[i], w).Some? && Path(Queued, QueuedBy(ls[i], w).value.name) in PathsAfter(files, ls, w)
  {
    ListedGo(files, ls, w, i, Requeued);
    var p := Path(Queued, QueuedBy(ls[i], w).value.name);
    assert p in NewPaths(ls[i], w);
    assert Written(ls, w, p);
    forall j | 0 <= j < |ls| ensures ls[j].name != p.name {
      WrittenIsNew(files, ls, w, p, j);
    }
    OthersStay(files, ls, w, p);
  }
}
