/** The queue protocol keeps its invariant, and what follows from it about every request. */
module QueueProtocolProofs {
  import opened Base
  import opened QueueProtocol

  /** `later` is `facts` with the history of one request changed or added, and what its file holds unchanged. */
  predicate Extends(facts: map<Name, Fact>, later: map<Name, Fact>, n: Name) {
    && (forall m :: m in facts ==> m in later && (m != n ==> later[m] == facts[m]))
    && (forall m :: m in later && m != n ==> m in facts)
    && (n in facts ==> later[n].runnable == facts[n].runnable)
  }

  /** A step that changes the history of a request which nobody else holds leaves all other processes right. */
  lemma OthersKeep(s: State, t: State, a: nat, n: Name)
    requires AppliersInv(s) && Extends(s.facts, t.facts, n) && n in t.facts
    requires forall b :: b in t.appliers && b != a ==> b in s.appliers && t.appliers[b] == s.appliers[b] && !Holds(s, b, n)
    requires a in t.appliers ==> PhaseOk(t.facts, t.appliers[a].phase) && TodoOk(t.facts, t.appliers[a].todo)
    ensures AppliersInv(t)
  {
    forall b | b in t.appliers
      ensures PhaseOk(t.facts, t.appliers[b].phase) && TodoOk(t.facts, t.appliers[b].todo)
    {
      if b != a {
        assert PhaseOk(s.facts, s.appliers[b].phase) && TodoOk(s.facts, s.appliers[b].todo);
        assert !Holds(s, b, n);
      }
    }
  }

  lemma TodoKeeps(facts: map<Name, Fact>, later: map<Name, Fact>, n: Name, todo: seq<Entry>, from: nat)
    requires TodoOk(facts, todo) && Extends(facts, later, n) && n in later && from <= |todo|
    ensures TodoOk(later, todo[from..])
  {
    forall i | 0 <= i < |todo| - from
      ensures Listed(later, todo[from..][i])
    {
      assert Listed(facts, todo[from + i]);
    }
  }

  /** Who holds what changes for one process only. */
  lemma HoldersKeep(s: State, t: State, a: nat)
    requires HoldersInv(s)
    requires forall b :: b in t.appliers && b != a ==> b in s.appliers && t.appliers[b] == s.appliers[b]
    requires forall n :: Holds(t, a, n) ==> forall b :: b != a ==> !Holds(s, b, n)
    ensures HoldersInv(t)
  {
    forall b, c, n | Holds(t, b, n) && Holds(t, c, n)
      ensures b == c
    {
      assert b != a ==> Holds(s, b, n);
      assert c != a ==> Holds(s, c, n);
    }
  }

  lemma NobodyHoldsOffShelf(s: State, n: Name, b: nat)
    requires AppliersInv(s) && (n in s.facts ==> s.facts[n].shelf != Processing)
    ensures !Holds(s, b, n)
  {
    if b in s.appliers {
      assert PhaseOk(s.facts, s.appliers[b].phase);
    }
  }

  lemma QueueKeeps(s: State, t: State, name: Name, runnable: bool)
    requires Inv(s) && Queue(s, t, name, runnable)
    ensures Inv(t)
  {
    assert PathsInv(t) && FactsInv(t);
    forall b
      ensures !Holds(s, b, name)
    {
      NobodyHoldsOffShelf(s, name, b);
    }
    hide PathsInv, FactsInv, FactOk;
    assert AppliersInv(t) by {
      forall b | b in t.appliers
        ensures PhaseOk(t.facts, t.appliers[b].phase) && TodoOk(t.facts, t.appliers[b].todo)
      {
        assert PhaseOk(s.facts, s.appliers[b].phase) && TodoOk(s.facts, s.appliers[b].todo);
        assert !Holds(s, b, name);
      }
    }
    assert forall a, n :: Holds(t, a, n) <==> Holds(s, a, n);
  }

  lemma LoadKeeps(s: State, t: State, a: nat, todo: seq<Entry>)
    requires Inv(s) && Load(s, t, a, todo)
    ensures Inv(t)
  {
    hide FactOk, Listed;
    assert PathsInv(t) && FactsInv(t) && AppliersInv(t);
    hide PathsInv, FactsInv, AppliersInv;
    HoldersKeep(s, t, a);
  }

  lemma RenamePaths(s: State, name: Name, from: Shelf, to: Shelf)
    requires PathsInv(s) && Path(from, name) in s.files && name in s.facts
    ensures PathsInv(Rename(s, name, from, to))
    ensures s.facts[name].shelf == from
  {
    var t := Rename(s, name, from, to);
    forall p | p in t.files
      ensures p.name in t.facts && t.facts[p.name].shelf == p.shelf
    {
      assert p != Path(to, name) ==> p in s.files;
    }
  }

  lemma ClaimKeeps(s: State, t: State, a: nat)
    requires Inv(s) && Claim(s, t, a)
    ensures Inv(t)
  {
    var p := s.appliers[a];
    var e := p.todo[0];
    RenamePaths(s, e.name, Queued, Processing);
    assert PathsInv(t);
    assert FactsInv(t) by { assert FactOk(s.facts[e.name]); }
    assert TodoOk(s.facts, p.todo) && Listed(s.facts, e);
    forall b
      ensures !Holds(s, b, e.name)
    {
      NobodyHoldsOffShelf(s, e.name, b);
    }
    assert FactOk(s.facts[e.name]);
    hide PathsInv, FactsInv;
    TodoKeeps(s.facts, t.facts, e.name, p.todo, 1);
    OthersKeep(s, t, a, e.name);
    HoldersKeep(s, t, a);
  }

  lemma ClaimFailsKeeps(s: State, t: State, a: nat)
    requires Inv(s) && ClaimFails(s, t, a)
    ensures Inv(t)
  {
    assert PathsInv(t) && FactsInv(t);
    hide PathsInv, FactsInv, Listed;
    var p := s.appliers[a];
    assert PhaseOk(s.facts, p.phase) && TodoOk(s.facts, p.todo);
    assert forall i :: 0 <= i < |p.todo| - 1 ==> p.todo[1..][i] == p.todo[i + 1];
    assert AppliersInv(t);
    hide AppliersInv, PhaseOk, TodoOk;
    HoldersKeep(s, t, a);
  }

  lemma RunKeeps(s: State, t: State, a: nat, rc: int)
    requires Inv(s) && Run(s, t, a, rc)
    ensures Inv(t)
  {
    var p := s.appliers[a];
    var e := p.phase.entry;
    assert PhaseOk(s.facts, p.phase) && TodoOk(s.facts, p.todo);
    assert FactOk(s.facts[e.name]);
    assert PathsInv(t) && FactsInv(t);
    hide PathsInv, FactsInv;
    assert Holds(s, a, e.name);
    TodoKeeps(s.facts, t.facts, e.name, p.todo, 0);
    assert p.todo[0..] == p.todo;
    OthersKeep(s, t, a, e.name);
    HoldersKeep(s, t, a);
  }

  lemma SettleKeeps(s: State, t: State, a: nat)
    requires Inv(s) && Settle(s, t, a)
    ensures Inv(t)
  {
    var p := s.appliers[a];
    var Ran(e, rc) := p.phase;
    RenamePaths(s, e.name, Processing, ShelfFor(rc));
    assert PathsInv(t);
    assert PhaseOk(s.facts, p.phase) && TodoOk(s.facts, p.todo);
    assert FactOk(s.facts[e.name]);
    assert FactsInv(t);
    hide PathsInv, FactsInv;
    assert Holds(s, a, e.name);
    TodoKeeps(s.facts, t.facts, e.name, p.todo, 0);
    assert p.todo[0..] == p.todo;
    OthersKeep(s, t, a, e.name);
    HoldersKeep(s, t, a);
  }

  lemma SettleFailsKeeps(s: State, t: State, a: nat)
    requires Inv(s) && SettleFails(s, t, a)
    ensures Inv(t)
  {
    assert PathsInv(t) && FactsInv(t);
    hide PathsInv, FactsInv, Listed;
    assert PhaseOk(s.facts, s.appliers[a].phase) && TodoOk(s.facts, s.appliers[a].todo);
    assert AppliersInv(t);
    hide AppliersInv, PhaseOk, TodoOk;
    HoldersKeep(s, t, a);
  }

  lemma LeaveKeeps(s: State, t: State, a: nat)
    requires Inv(s) && Leave(s, t, a)
    ensures Inv(t)
  {
    assert PathsInv(t) && FactsInv(t) && AppliersInv(t);
    hide PathsInv, FactsInv, AppliersInv;
    HoldersKeep(s, t, a);
  }

  lemma NextKeeps(s: State, t: State, act: Action)
    requires Inv(s) && Does(s, t, act)
    ensures Inv(t)
  {
    hide Inv;
    match act
    case DoQueue(name, runnable) => QueueKeeps(s, t, name, runnable);
    case DoLoad(a, todo) => LoadKeeps(s, t, a, todo);
    case DoClaim(a) => ClaimKeeps(s, t, a);
    case DoClaimFails(a) => ClaimFailsKeeps(s, t, a);
    case DoRun(a, rc) => RunKeeps(s, t, a, rc);
    case DoSettle(a) => SettleKeeps(s, t, a);
    case DoSettleFails(a) => SettleFailsKeeps(s, t, a);
    case DoLeave(a) => LeaveKeeps(s, t, a);
  }

  lemma {:induction false} ExecutionInv(run: seq<State>, k: nat)
    requires Execution(run) && k < |run|
    ensures Inv(run[k])
  {
    hide Inv, Does;
    if k == 0 {
      assert Inv(run[0]) by { InitInv(run[0]); }
    } else {
      ExecutionInv(run, k - 1);
      assert Next(run[k - 1], run[k]);
      var act :| Does(run[k - 1], run[k], act);
      NextKeeps(run[k - 1], run[k], act);
    }
  }

  lemma InitInv(s: State)
    requires Init(s)
    ensures Inv(s)
  {
  }

  // ---------------------------------------------------------------- what the queue promises

  /** In every reachable state each request is on exactly one shelf, its verb has run at most once, and its
      shelf tells how that run went. */
  lemma RequestsAreSafe(run: seq<State>, k: nat, name: Name, shelf: Shelf)
    requires Execution(run) && k < |run| && name in run[k].facts
    ensures var s := run[k];
      var f := s.facts[name];
      && (Path(shelf, name) in s.files <==> shelf == f.shelf)
      && f.runs <= 1 && (f.runs == 1 ==> f.runnable)
      && (f.shelf == Queued ==> f.runs == 0)
      && (f.shelf == Applied ==> f.runs == 1 && f.exit == Some(0))
      && (f.shelf == Requeued ==> f.runs == 1 && f.exit == Some(4))
      && (f.shelf == Failed ==> f.exit.Some? && f.exit.value != 0 && f.exit.value != 4)
  {
    ExecutionInv(run, k);
    var s := run[k];
    assert FactOk(s.facts[name]);
    hide FactsInv, AppliersInv, HoldersInv;
    if Path(shelf, name) in s.files {
      var p := Path(shelf, name);
      assert s.facts[p.name].shelf == p.shelf;
    }
  }

  /** No request is ever lost: a name that was queued stays known and on a shelf. */
  lemma {:induction false} RequestsArePreserved(run: seq<State>, k: nat, m: nat, name: Name)
    requires Execution(run) && k <= m < |run| && name in run[k].facts
    ensures name in run[m].facts && run[m].facts[name].runs >= run[k].facts[name].runs
    ensures Path(run[m].facts[name].shelf, name) in run[m].files
    decreases m - k
  {
    ExecutionInv(run, k);
    if k < m {
      assert Next(run[k], run[k + 1]);
      var act :| Does(run[k], run[k + 1], act);
      RequestsArePreserved(run, k + 1, m, name);
    }
  }

  /** A request on the processing shelf that no process holds: its applier crashed, or could not move it. */
  ghost predicate Stranded(s: State, name: Name) {
    Path(Processing, name) in s.files && forall a :: !Holds(s, a, name)
  }

  lemma StrandedStep(s: State, t: State, act: Action, name: Name)
    requires Inv(s) && Does(s, t, act) && Stranded(s, name)
    ensures Stranded(t, name) && name in s.facts && name in t.facts && t.facts[name] == s.facts[name]
  {
    hide FactsInv, AppliersInv, HoldersInv;
    var p := Path(Processing, name);
    assert s.facts[p.name].shelf == Processing;
    match act {
      case DoClaim(a) =>
        var q := Path(Queued, s.appliers[a].todo[0].name);
        assert s.facts[q.name].shelf == Queued;
      case DoRun(a, _) => assert !Holds(s, a, name);
      case DoSettle(a) => assert !Holds(s, a, name);
      case _ =>
    }
    hide PathsInv;
    forall b
      ensures !Holds(t, b, name)
    {
      assert !Holds(s, b, name);
    }
  }

  /** A stranded request stays where it is and is never run again. */
  lemma {:induction false} StrandedForever(run: seq<State>, k: nat, m: nat, name: Name)
    requires Execution(run) && k <= m < |run| && Stranded(run[k], name)
    ensures Stranded(run[m], name) && name in run[k].facts && name in run[m].facts && run[m].facts[name] == run[k].facts[name]
    decreases m - k
  {
    ExecutionInv(run, k);
    assert PathsInv(run[k]);
    assert Path(Processing, name).name in run[k].facts;
    hide Inv, Does;
    if k < m {
      assert Next(run[k], run[k + 1]);
      var act :| Does(run[k], run[k + 1], act);
      StrandedStep(run[k], run[k + 1], act, name);
      StrandedForever(run, k + 1, m, name);
    }
  }
}
