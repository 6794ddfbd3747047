/** One applier and the queue directory (go/cmd/evolve/cli_queue.go): load, order, and for each request claim, run and
    settle. */
module QueueApply {
  import opened Base
  import opened QueueProtocol
  import opened QueueProtocolProofs
  import opened QueueListing
  import opened QueuePass

  /** What an applier has read of the listed requests. */
  function Todo(ls: seq<Listing>): seq<Entry> { Map((l: Listing) => Entry(l.name, l.runnable), ls) }

  /** Consecutive states of the protocol, the last of which has this directory and an idle applier with a todo list. */
  ghost predicate Traced(trace: seq<State>, files: set<Path>, a: nat, p: Applier) {
    && trace != [] && (forall k :: 0 <= k < |trace| - 1 ==> Next(trace[k], trace[k + 1]))
    && var s := trace[|trace| - 1];
       Inv(s) && s.files == files && a in s.appliers && s.appliers[a] == p
  }

  lemma TraceStep(trace: seq<State>, files: set<Path>, a: nat, p: Applier, act: Action, t: State)
    requires Traced(trace, files, a, p) && Does(trace[|trace| - 1], t, act) && a in t.appliers
    ensures Traced(trace + [t], t.files, a, t.appliers[a])
  {
    hide Does, Inv;
    var s, longer := trace[|trace| - 1], trace + [t];
    NextKeeps(s, t, act);
    assert Next(s, t);
    forall k | 0 <= k < |longer| - 1 ensures Next(longer[k], longer[k + 1]) {
      if k < |trace| - 1 {
        assert Next(trace[k], trace[k + 1]);
      }
    }
  }

  /** How a run of the verb ends. */
  datatype Outcome = CannotList | NoRequest | Waiting(requests: nat) | Worked(applied: nat, requests: nat)

  /** The listing shows the files of the queue shelf, each once, and what was read of each; the shelves themselves are
      its directories. */
  ghost predicate ListsQueue(listing: seq<Listing>, s: State) {
    && Distinct(listing)
    && (forall i :: 0 <= i < |listing| && !listing[i].isDir ==>
          && Path(Queued, listing[i].name) in s.files
          && Listed(s.facts, Entry(listing[i].name, listing[i].runnable)))
    && (forall n :: Path(Queued, n) in s.files ==> exists i :: 0 <= i < |listing| && listing[i].name == n && !listing[i].isDir)
  }

  class QueueDirectory {
    var files: set<Path>

    /** The verbs run so far, in order. */
    ghost var ran: seq<Name>

    /** The run of the protocol so far. */
    ghost var trace: seq<State>

    ghost predicate At(a: nat, p: Applier)
      reads this
    {
      Traced(trace, files, a, p)
    }

    constructor (files: set<Path>)
      ensures this.files == files && ran == []
    {
      this.files := files;
      ran, trace := [], [];
    }

    /** Records a step that led to the directory as it is now. */
    ghost method Took(was: set<Path>, a: nat, p: Applier, act: Action, t: State)
      requires Traced(trace, was, a, p) && Does(trace[|trace| - 1], t, act) && a in t.appliers && t.files == files
      modifies this`trace
      ensures At(a, t.appliers[a]) && old(trace) <= trace
    {
      TraceStep(trace, was, a, p, act, t);
      trace := trace + [t];
    }

    /** The steps of the protocol that a claim, a run and a settling are. */
    ghost method TookClaim(was: set<Path>, a: nat, e: Entry, rest: seq<Entry>, ok: bool)
      requires Traced(trace, was, a, Applier([e] + rest, Choosing))
      requires ok ==> Path(Queued, e.name) in was
      requires files == if ok then was - {Path(Queued, e.name)} + {Path(Processing, e.name)} else was
      modifies this`trace
      ensures At(a, Applier(rest, if ok then Claimed(e) else Choosing)) && old(trace) <= trace
    {
      var s, p := trace[|trace| - 1], Applier([e] + rest, Choosing);
      assert p.todo[1..] == rest;
      if ok {
        NamedOnShelf(s, Queued, e.name);
        Took(was, a, p, DoClaim(a), Put(Rename(s, e.name, Queued, Processing), a, Applier(rest, Claimed(e))));
      } else {
        Took(was, a, p, DoClaimFails(a), Put(s, a, Applier(rest, Choosing)));
      }
    }

    ghost method TookQueue(was: set<Path>, a: nat, p: Applier, e: Entry)
      requires Traced(trace, was, a, p) && Absent(was, e.name) && files == was + {Path(Queued, e.name)}
      modifies this`trace
      ensures At(a, p) && old(trace) <= trace
    {
      var s := trace[|trace| - 1];
      AbsentIsUnknown(s, e.name);
      var t := s.(files := s.files + {Path(Queued, e.name)}, facts := s.facts[e.name := Fact(e.runnable, Queued, 0, None)]);
      Took(was, a, p, DoQueue(e.name, e.runnable), t);
    }

    ghost method TookRun(a: nat, e: Entry, rest: seq<Entry>, rc: int)
      requires At(a, Applier(rest, Claimed(e))) && (!e.runnable ==> rc == EXIT_INPUT)
      modifies this`trace
      ensures At(a, Applier(rest, Ran(e, rc))) && old(trace) <= trace
    {
      var s := trace[|trace| - 1];
      HeldIsKnown(s, a);
      var f := s.facts[e.name];
      var t := Put(s, a, Applier(rest, Ran(e, rc)))
        .(facts := s.facts[e.name := f.(runs := if e.runnable then f.runs + 1 else f.runs, exit := Some(rc))]);
      Took(files, a, Applier(rest, Claimed(e)), DoRun(a, rc), t);
    }

    ghost method TookSettle(was: set<Path>, a: nat, e: Entry, rest: seq<Entry>, rc: int, ok: bool)
      requires Traced(trace, was, a, Applier(rest, Ran(e, rc)))
      requires files == if ok then was - {Path(Processing, e.name)} + {Path(ShelfFor(rc), e.name)} else was
      requires ok ==> Path(Processing, e.name) in was
      modifies this`trace
      ensures At(a, Applier(rest, Choosing)) && old(trace) <= trace
    {
      var s := trace[|trace| - 1];
      HeldIsKnown(s, a);
      var p := Applier(rest, Ran(e, rc));
      if ok {
        Took(was, a, p, DoSettle(a), Put(Rename(s, e.name, Processing, ShelfFor(rc)), a, Applier(rest, Choosing)));
      } else {
        Took(was, a, p, DoSettleFails(a), Put(s, a, Applier(rest, Choosing)));
      }
    }

    /** rename(2) to another shelf; it fails when the file is not where it was, or on an I/O error. */
    method Shelve(name: Name, from: Shelf, to: Shelf, fails: bool) returns (ok: bool)
      modifies this`files
      ensures ok == (!fails && Path(from, name) in old(files))
      ensures files == if ok then old(files) - {Path(from, name)} + {Path(to, name)} else old(files)
    {
      ok := !fails && Path(from, name) in files;
      if ok {
        files := files - {Path(from, name)} + {Path(to, name)};
      }
    }

    /** Claim, run, settle: steps of the protocol by an applier `a` that has `rest` still to do. The verb may queue a
        request of its own while it runs. */
    method ApplyOne(l: Listing, w: World, ghost a: nat, ghost rest: seq<Entry>) returns (applied: bool)
      requires At(a, Applier([Entry(l.name, l.runnable)] + rest, Choosing))
      requires QueuedBy(l, w).Some? ==> Absent(files, QueuedBy(l, w).value.name)
      modifies this
      ensures At(a, Applier(rest, Choosing)) && old(trace) <= trace
      ensures var claimed := Claims(old(files), l, w);
        && applied == (claimed && ExitOf(l, w) == EXIT_OK)
        && ran == old(ran) + (if claimed && l.runnable then [l.name] else [])
      ensures files == AfterOne(old(files), l, w)
    {
      hide Traced;
      ghost var e, was := Entry(l.name, l.runnable), files;
      var claimed := Shelve(l.name, Queued, Processing, w.claimFails(l.name));
      TookClaim(was, a, e, rest, claimed);
      if !claimed { return false; }
      var rc := EXIT_INPUT;
      if l.runnable {
        ran := ran + [l.name];
        rc := w.exit(l.name);
        var again := w.queues(l.name);
        if again.Some? {
          ClaimKeepsAbsent(was, l.name, again.value.name);
          was := files;
          files := files + {Path(Queued, again.value.name)};
          TookQueue(was, a, Applier(rest, Claimed(e)), again.value);
        }
      }
      TookRun(a, e, rest, rc);
      was := files;
      var settled := Shelve(l.name, Processing, ShelfFor(rc), w.settleFails(l.name));
      TookSettle(was, a, e, rest, rc, settled);
      applied := rc == EXIT_OK;
    }

    /** A pass is a run of the protocol from the state in which the applier has loaded the listing. */
    method ApplyQueue(ls: seq<Listing>, w: World, ghost a: nat) returns (applied: nat)
      requires At(a, Applier(Todo(ls), Choosing)) && FreshNames(files, ls, w)
      modifies this
      ensures At(a, Applier([], Choosing)) && old(trace) <= trace
      ensures files == PathsAfter(old(files), ls, w)
      ensures ran == old(ran) + VerbsRun(old(files), ls, w)
      ensures applied == CountApplied(old(files), ls, w)
    {
      hide Traced, FreshNames, PathsAfter, VerbsRun, CountApplied, AfterOne, Claims, Absent, ExitOf;
      applied := 0;
      assert ran == ran + [] && ls[0..] == ls;
      NothingYet(files, ls, w);
      for n := 0 to |ls|
        invariant files == PathsAfter(old(files), ls[..n], w)
        invariant ran == old(ran) + VerbsRun(old(files), ls[..n], w)
        invariant applied == CountApplied(old(files), ls[..n], w)
        invariant At(a, Applier(Todo(ls[n..]), Choosing)) && old(trace) <= trace
      {
        OneMore(old(files), ls, w, n);
        TodoStep(ls, n);
        FreshAt(old(files), ls, w, n);
        var ok := ApplyOne(ls[n], w, a, Todo(ls[n + 1..]));
        if ok { applied := applied + 1; }
      }
      assert ls[..|ls|] == ls && Todo(ls[|ls|..]) == [];
    }

    /** Keeps the request files of a directory listing, those that are no directory and whose name ends in the
        extension, and puts them in order. */
    method LoadQueue(listing: seq<Listing>) returns (entries: seq<Listing>)
      ensures Distinct(listing) ==> Distinct(entries)
      ensures forall i, j :: 0 <= i < j < |entries| ==> InOrder(entries[i], entries[j])
      ensures forall l :: l in entries <==> l in listing && !l.isDir && NamedJson(l.name)
      ensures multiset(entries) == multiset(Filter(listing, l => IsRequestFile(l)))
    {
      var kept := [];
      for n := 0 to |listing|
        invariant kept == Filter(listing[..n], l => IsRequestFile(l))
      {
        assert listing[..n + 1] == listing[..n] + [listing[n]];
        FilterAppend(listing[..n], [listing[n]], l => IsRequestFile(l));
        if IsRequestFile(listing[n]) {
          kept := kept + [listing[n]];
        }
      }
      assert listing[..|listing|] == listing;
      SortSorts(kept);
      entries := Sort(kept);
      LoadedMembers(listing, entries);
      forall l ensures IsRequestFile(l) <==> !l.isDir && NamedJson(l.name) {
        RequestFiles(l);
      }
    }

    /** Loads the queue and works it off, as the verb does: nothing when the directory cannot be listed, when no request
        is in it, and while a lane is live. A pass is a run of the protocol from any state `s` that the queue can be in.
        The requests go in order; and without rename errors none of them is left in the queue directory, each is on the
        shelf of its exit code, and what is new in the queue is what the verbs have queued. */
    method RunQueueApply(listing: Option<seq<Listing>>, live: bool, w: World, ghost a: nat, ghost s: State)
      returns (outcome: Outcome, ls: seq<Listing>)
      requires Inv(s) && s.files == files && a !in s.appliers
      requires listing.Some? ==> ListsQueue(listing.value, s) && FreshNames(files, Filter(listing.value, l => IsRequestFile(l)), w)
      modifies this
      ensures outcome == (if listing == None then CannotList else if ls == [] then NoRequest
                          else if live then Waiting(|ls|) else Worked(CountApplied(old(files), ls, w), |ls|))
      ensures listing.Some? ==>
        && Distinct(ls) && (forall i, j :: 0 <= i < j < |ls| ==> InOrder(ls[i], ls[j]))
        && forall l :: l in ls <==> l in listing.value && !l.isDir && NamedJson(l.name)
      ensures !outcome.Worked? ==> files == old(files) && ran == old(ran)
      ensures outcome.Worked? ==>
        && At(a, Applier([], Choosing)) && trace[0] == s
        && files == PathsAfter(old(files), ls, w) && ran == old(ran) + VerbsRun(old(files), ls, w)
      ensures outcome.Worked? && NoErrors(w, ls) ==>
        && ran == old(ran) + Runnable(ls) && outcome.applied == Successes(ls, w)
        && (forall i, sh :: 0 <= i < |ls| ==> (Path(sh, ls[i].name) in files <==> sh == EndOf(ls[i], w)))
        && (forall n :: NamedJson(n) && Path(Queued, n) in files ==> Written(ls, w, Path(Queued, n)))
    {
      hide Traced, FreshNames, PathsAfter, VerbsRun, CountApplied, Inv, IsRequestFile, Written, EndOf;
      if listing == None {
        return CannotList, [];
      }
      ls := LoadQueue(listing.value);
      if ls == [] {
        return NoRequest, ls;
      }
      if live {
        return Waiting(|ls|), ls;
      }
      forall l ensures IsRequestFile(l) <==> !l.isDir && NamedJson(l.name) {
        RequestFiles(l);
      }
      FreshSorted(files, listing.value, ls, w);
      LoadTrace(s, listing.value, ls, a);
      ghost var start := Put(s, a, Applier(Todo(ls), Choosing));
      trace := [s, start];
      var applied := ApplyQueue(ls, w, a);
      outcome := Worked(applied, |ls|);
      if NoErrors(w, ls) {
        LoadedAreReady(s, listing.value, ls, w);
        PassEmptiesQueue(s.files, ls, w);
        forall n | NamedJson(n) && Path(Queued, n) in files ensures Written(ls, w, Path(Queued, n)) {
          RequestNames(n);
          NothingLeft(s, listing.value, ls, w, n);
        }
      }
    }
  }

  lemma RequestFiles(l: Listing)
    ensures IsRequestFile(l) <==> !l.isDir && NamedJson(l.name)
  {
    RequestNames(l.name);
  }

  lemma NamedOnShelf(s: State, shelf: Shelf, name: Name)
    requires Inv(s) && Path(shelf, name) in s.files
    ensures name in s.facts
  {
    var p := Path(shelf, name);
    assert p.name in s.facts;
  }

  lemma HeldIsKnown(s: State, a: nat)
    requires Inv(s) && a in s.appliers && !s.appliers[a].phase.Choosing?
    ensures s.appliers[a].phase.entry.name in s.facts
  {
    assert PhaseOk(s.facts, s.appliers[a].phase);
  }

  lemma AbsentIsUnknown(s: State, name: Name)
    requires Inv(s) && Absent(s.files, name)
    ensures name !in s.facts
  {
    hide FactsInv, AppliersInv, HoldersInv;
  }

  lemma ClaimKeepsAbsent(files: set<Path>, claimed: Name, name: Name)
    requires Absent(files, name) && Path(Queued, claimed) in files
    ensures Absent(files - {Path(Queued, claimed)} + {Path(Processing, claimed)}, name) && name != claimed
  {
    assert Path(Queued, name) !in files;
    forall sh ensures Path(sh, name) !in files - {Path(Queued, claimed)} + {Path(Processing, claimed)} {
      assert Path(sh, name) !in files;
    }
  }

  lemma NothingYet(files: set<Path>, ls: seq<Listing>, w: World)
    ensures PathsAfter(files, ls[..0], w) == files && VerbsRun(files, ls[..0], w) == [] && CountApplied(files, ls[..0], w) == 0
  {
  }

  lemma OneMore(files: set<Path>, ls: seq<Listing>, w: World, n: nat)
    requires n < |ls|
    ensures var before, claimed := PathsAfter(files, ls[..n], w), Claims(PathsAfter(files, ls[..n], w), ls[n], w);
      && PathsAfter(files, ls[..n + 1], w) == AfterOne(before, ls[n], w)
      && VerbsRun(files, ls[..n + 1], w) == VerbsRun(files, ls[..n], w) + (if claimed && ls[n].runnable then [ls[n].name] else [])
      && CountApplied(files, ls[..n + 1], w)
           == CountApplied(files, ls[..n], w) + (if claimed && ExitOf(ls[n], w) == EXIT_OK then 1 else 0)
  {
    hide AfterOne, Claims, ExitOf;
    assert ls[..n + 1][..n] == ls[..n];
  }

  lemma TodoStep(ls: seq<Listing>, n: nat)
    requires n < |ls|
    ensures Todo(ls[n..]) == [Entry(ls[n].name, ls[n].runnable)] + Todo(ls[n + 1..])
  {
  }

  lemma FreshAt(files: set<Path>, ls: seq<Listing>, w: World, n: nat)
    requires FreshNames(files, ls, w) && n < |ls|
    ensures QueuedBy(ls[n], w).Some? ==> Absent(PathsAfter(files, ls[..n], w), QueuedBy(ls[n], w).value.name)
  {
    hide QueuedBy, Absent, PathsAfter;
    if QueuedBy(ls[n], w).Some? {
      forall i | 0 <= i < n && QueuedBy(ls[..n][i], w).Some?
        ensures QueuedBy(ls[..n][i], w).value.name != QueuedBy(ls[n], w).value.name
      {
        assert OtherName(ls[i], ls[n], w);
      }
      StaysAbsent(files, ls[..n], w, QueuedBy(ls[n], w).value.name);
    }
  }

  // ---------------------------------------------------------------- from a listing to a pass

  lemma LoadedMembers(listing: seq<Listing>, ls: seq<Listing>)
    requires ls == Sort(Filter(listing, l => IsRequestFile(l)))
    ensures forall l :: l in ls <==> l in listing && IsRequestFile(l)
    ensures Distinct(listing) ==> Distinct(ls)
  {
    hide IsRequestFile, Sort;
    var kept := Filter(listing, l => IsRequestFile(l));
    SortSorts(kept);
    FilterMembers(listing, l => IsRequestFile(l));
    forall l ensures l in ls <==> l in kept {
      assert l in multiset(ls) <==> l in multiset(kept);
    }
    if Distinct(listing) {
      FilterDistinct(listing, l => IsRequestFile(l));
      SortDistinct(kept);
    }
  }

  lemma {:induction false} FilterMembers(ls: seq<Listing>, keep: Listing -> bool)
    ensures forall x :: x in Filter(ls, keep) <==> x in ls && keep(x)
  {
    if ls != [] {
      FilterMembers(ls[1..], keep);
      assert ls == [ls[0]] + ls[1..];
    }
  }

  /** Fresh names do not depend on the order of the requests. */
  lemma FreshSorted(files: set<Path>, listing: seq<Listing>, ls: seq<Listing>, w: World)
    requires Distinct(listing) && Distinct(ls) && (forall l :: l in ls <==> l in listing && IsRequestFile(l))
    requires FreshNames(files, Filter(listing, l => IsRequestFile(l)), w)
    ensures FreshNames(files, ls, w)
  {
    hide QueuedBy, Absent, IsRequestFile;
    var kept := Filter(listing, l => IsRequestFile(l));
    FilterMembers(listing, l => IsRequestFile(l));
    forall i | 0 <= i < |ls| && QueuedBy(ls[i], w).Some?
      ensures Absent(files, QueuedBy(ls[i], w).value.name)
    {
      assert ls[i] in ls;
      var k :| 0 <= k < |kept| && kept[k] == ls[i];
    }
    forall i, j | 0 <= i < j < |ls|
      ensures OtherName(ls[i], ls[j], w)
    {
      assert ls[i] in ls && ls[j] in ls;
      var k :| 0 <= k < |kept| && kept[k] == ls[i];
      var m :| 0 <= m < |kept| && kept[m] == ls[j];
      assert ls[i].name != ls[j].name;
      assert OtherName(kept[if k < m then k else m], kept[if k < m then m else k], w);
    }
  }

  /** Loading is a step of the protocol. */
  lemma LoadTrace(s: State, listing: seq<Listing>, ls: seq<Listing>, a: nat)
    requires Inv(s) && a !in s.appliers && ListsQueue(listing, s) && (forall l :: l in ls <==> l in listing && IsRequestFile(l))
    ensures var t := Put(s, a, Applier(Todo(ls), Choosing));
      Traced([s, t], s.files, a, Applier(Todo(ls), Choosing))
  {
    hide Inv;
    var todo := Todo(ls);
    var t := Put(s, a, Applier(todo, Choosing));
    forall i | 0 <= i < |todo| ensures Listed(s.facts, todo[i]) {
      assert ls[i] in ls;
      var k :| 0 <= k < |listing| && listing[k] == ls[i];
    }
    assert Does(s, t, DoLoad(a, todo));
    NextKeeps(s, t, DoLoad(a, todo));
    assert Next([s, t][0], [s, t][1]);
  }

  /** What is loaded is in the queue and nowhere else. */
  lemma LoadedAreReady(s: State, listing: seq<Listing>, ls: seq<Listing>, w: World)
    requires Inv(s) && ListsQueue(listing, s) && Distinct(ls) && (forall l :: l in ls <==> l in listing && IsRequestFile(l))
    requires NoErrors(w, ls) && FreshNames(s.files, ls, w)
    ensures Ready(s.files, ls, w)
  {
    hide FreshNames, FactsInv, AppliersInv, HoldersInv;
    forall i, sh | 0 <= i < |ls| ensures Path(sh, ls[i].name) in s.files <==> sh == Queued {
      assert ls[i] in ls;
      var k :| 0 <= k < |listing| && listing[k] == ls[i];
      var p, q := Path(sh, ls[i].name), Path(Queued, ls[i].name);
      assert q in s.files && s.facts[q.name].shelf == Queued;
      assert p in s.files ==> s.facts[p.name].shelf == sh;
    }
  }

  /** A request file that is in the queue after a pass is one that a verb of the pass has written. */
  lemma NothingLeft(s: State, listing: seq<Listing>, ls: seq<Listing>, w: World, n: Name)
    requires ListsQueue(listing, s) && (forall l :: l in ls <==> l in listing && IsRequestFile(l)) && Ready(s.files, ls, w)
    requires IsRequestName(n) && Path(Queued, n) in PathsAfter(s.files, ls, w)
    ensures Written(ls, w, Path(Queued, n))
  {
    hide Written, PathsAfter, Ready;
    PassEmptiesQueue(s.files, ls, w);
    forall i | 0 <= i < |ls| ensures ls[i].name != n {
      assert Path(Queued, ls[i].name) in PathsAfter(s.files, ls, w) <==> Queued == EndOf(ls[i], w);
    }
    forall k | 0 <= k < |listing| && !listing[k].isDir ensures listing[k].name != n {
      assert listing[k] in listing;
      assert IsRequestFile(listing[k]) ==> listing[k] in ls;
    }
  }
}
