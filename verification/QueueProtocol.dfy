/** The mid-wave request queue (go/cmd/evolve/cli_queue.go) under any number of appliers, any interleaving, and
    crashes at any step. A request is a file that moves by rename from the queue to a shelf. */
module QueueProtocol {
  import opened Base

  type Name = string

  datatype Shelf = Queued | Processing | Applied | Failed | Requeued

  datatype Path = Path(shelf: Shelf, name: Name)

  const EXIT_OK := 0
  const EXIT_QUEUED := 4
  const EXIT_INPUT := 11

  /** Where a request goes when its run exits with `rc`. */
  function ShelfFor(rc: int): Shelf {
    if rc == EXIT_OK then Applied else if rc == EXIT_QUEUED then Requeued else Failed
  }

  /** One line of an applier's listing: the file's name, and whether it read as a request for a queued verb. */
  datatype Entry = Entry(name: Name, runnable: bool)

  /** Choosing: between two requests. Claimed: the file is on the processing shelf and its verb has not run.
      Ran: the verb has exited, the file has not moved yet. */
  datatype Phase = Choosing | Claimed(entry: Entry) | Ran(entry: Entry, rc: int)

  datatype Applier = Applier(todo: seq<Entry>, phase: Phase)

  /** The history of one request: what its file holds, the shelf its last rename went to, how often its verb
      ran, and the exit code its run was given. */
  datatype Fact = Fact(runnable: bool, shelf: Shelf, runs: nat, exit: Option<int>)

  /** `files` is the directory, `appliers` are the live processes. `facts` is history and steers no step. */
  datatype State = State(files: set<Path>, appliers: map<nat, Applier>, facts: map<Name, Fact>)

  predicate Init(s: State) { s == State({}, map[], map[]) }

  /** rename(2): an atomic move that replaces whatever is at the target. */
  function Rename(s: State, name: Name, from: Shelf, to: Shelf): State
    requires name in s.facts
  {
    s.(files := s.files - {Path(from, name)} + {Path(to, name)}, facts := s.facts[name := s.facts[name].(shelf := to)])
  }

  function Put(s: State, a: nat, p: Applier): State { s.(appliers := s.appliers[a := p]) }

  /** A listed name is that of a request, and what was read of it is what the file holds. */
  predicate Listed(facts: map<Name, Fact>, e: Entry) {
    e.name in facts && (e.runnable ==> facts[e.name].runnable)
  }

  // ---------------------------------------------------------------- the steps

  /** A CLI call writes a request under a fresh name; a verb that queues itself again does the same. */
  predicate Queue(s: State, t: State, name: Name, runnable: bool) {
    && name !in s.facts
    && t == s.(files := s.files + {Path(Queued, name)}, facts := s.facts[name := Fact(runnable, Queued, 0, None)])
  }

  /** A process lists the directory. The listing can be stale by the time it is used. */
  predicate Load(s: State, t: State, a: nat, todo: seq<Entry>) {
    && a !in s.appliers && (forall i :: 0 <= i < |todo| ==> Listed(s.facts, todo[i]))
    && t == Put(s, a, Applier(todo, Choosing))
  }

  predicate Chooses(s: State, a: nat) {
    a in s.appliers && s.appliers[a].phase == Choosing && s.appliers[a].todo != []
  }

  predicate Claim(s: State, t: State, a: nat) {
    && Chooses(s, a)
    && var p := s.appliers[a];
       var e := p.todo[0];
       && Path(Queued, e.name) in s.files && e.name in s.facts
       && t == Put(Rename(s, e.name, Queued, Processing), a, Applier(p.todo[1..], Claimed(e)))
  }

  predicate ClaimFails(s: State, t: State, a: nat) {
    Chooses(s, a) && t == Put(s, a, s.appliers[a].(todo := s.appliers[a].todo[1..]))
  }

  /** A request that cannot be read, or names no queued verb, gets the input exit code and does not run. */
  predicate Run(s: State, t: State, a: nat, rc: int) {
    && a in s.appliers && s.appliers[a].phase.Claimed?
    && var e := s.appliers[a].phase.entry;
       && (!e.runnable ==> rc == EXIT_INPUT) && e.name in s.facts
       && var f := s.facts[e.name];
          t == Put(s, a, s.appliers[a].(phase := Ran(e, rc)))
               .(facts := s.facts[e.name := f.(runs := if e.runnable then f.runs + 1 else f.runs, exit := Some(rc))])
  }

  predicate Settle(s: State, t: State, a: nat) {
    && a in s.appliers && s.appliers[a].phase.Ran?
    && var Ran(e, rc) := s.appliers[a].phase;
       && Path(Processing, e.name) in s.files && e.name in s.facts
       && t == Put(Rename(s, e.name, Processing, ShelfFor(rc)), a, s.appliers[a].(phase := Choosing))
  }

  predicate SettleFails(s: State, t: State, a: nat) {
    && a in s.appliers && s.appliers[a].phase.Ran?
    && t == Put(s, a, s.appliers[a].(phase := Choosing))
  }

  /** The process ends: it is done, or it crashes, at any step. */
  predicate Leave(s: State, t: State, a: nat) {
    a in s.appliers && t == s.(appliers := s.appliers - {a})
  }

  datatype Action =
    | DoQueue(name: Name, runnable: bool)
    | DoLoad(applier: nat, todo: seq<Entry>)
    | DoClaim(applier: nat)
    | DoClaimFails(applier: nat)
    | DoRun(applier: nat, rc: int)
    | DoSettle(applier: nat)
    | DoSettleFails(applier: nat)
    | DoLeave(applier: nat)

  predicate Does(s: State, t: State, act: Action) {
    match act
    case DoQueue(name, runnable) => Queue(s, t, name, runnable)
    case DoLoad(a, todo) => Load(s, t, a, todo)
    case DoClaim(a) => Claim(s, t, a)
    case DoClaimFails(a) => ClaimFails(s, t, a)
    case DoRun(a, rc) => Run(s, t, a, rc)
    case DoSettle(a) => Settle(s, t, a)
    case DoSettleFails(a) => SettleFails(s, t, a)
    case DoLeave(a) => Leave(s, t, a)
  }

  ghost predicate Next(s: State, t: State) { exists act :: Does(s, t, act) }

  ghost predicate Execution(run: seq<State>) {
    run != [] && Init(run[0]) && forall k :: 0 <= k < |run| - 1 ==> Next(run[k], run[k + 1])
  }

  // ---------------------------------------------------------------- the invariant

  /** The directory holds each request once, on the shelf its last rename went to. */
  predicate PathsInv(s: State) {
    && (forall p :: p in s.files ==> p.name in s.facts && s.facts[p.name].shelf == p.shelf)
    && (forall n :: n in s.facts ==> Path(s.facts[n].shelf, n) in s.files)
  }

  /** What the shelf of a request says about its run. */
  predicate FactOk(f: Fact) {
    && f.runs <= 1 && (f.runs == 1 ==> f.runnable && f.exit.Some?)
    && match f.shelf
       case Queued => f.runs == 0 && f.exit == None
       case Processing => true
       case Applied => f.runs == 1 && f.exit == Some(0)
       case Requeued => f.runs == 1 && f.exit == Some(4)
       case Failed => f.exit.Some? && f.exit.value != 0 && f.exit.value != 4
  }

  predicate FactsInv(s: State) { forall n :: n in s.facts ==> FactOk(s.facts[n]) }

  /** The request a process works on is on the processing shelf, and its history is what the process thinks. */
  predicate PhaseOk(facts: map<Name, Fact>, phase: Phase) {
    !phase.Choosing? ==>
      && Listed(facts, phase.entry)
      && var f := facts[phase.entry.name];
         && f.shelf == Processing
         && (phase.Claimed? ==> f.runs == 0 && f.exit == None)
         && (phase.Ran? ==> f.exit == Some(phase.rc) && (phase.rc != EXIT_INPUT ==> f.runs == 1))
  }

  predicate TodoOk(facts: map<Name, Fact>, todo: seq<Entry>) {
    forall i :: 0 <= i < |todo| ==> Listed(facts, todo[i])
  }

  predicate AppliersInv(s: State) {
    forall a :: a in s.appliers ==> PhaseOk(s.facts, s.appliers[a].phase) && TodoOk(s.facts, s.appliers[a].todo)
  }

  predicate Holds(s: State, a: nat, n: Name) {
    a in s.appliers && !s.appliers[a].phase.Choosing? && s.appliers[a].phase.entry.name == n
  }

  /** No two processes work on one request. */
  ghost predicate HoldersInv(s: State) {
    forall a, b, n :: Holds(s, a, n) && Holds(s, b, n) ==> a == b
  }

  ghost predicate Inv(s: State) { PathsInv(s) && FactsInv(s) && AppliersInv(s) && HoldersInv(s) }
}
