/** Applying a reviewed list of decisions to the carryover entries of the state file (go/cmd/evolve/cmd_carryover.go). */
module Carryover {
  import opened Base

  datatype Decision = Decision(id: string, decision: string, reason: string, clusterGroup: string)

  /** An entry of the list: an object with or without an id, or something that is not an object. */
  datatype Entry = Item(id: Option<string>, rest: string) | NotAnObject(raw: string)

  /** A field of the state: a list, or anything else. */
  datatype Field = Entries(list: seq<Entry>) | Other(raw: string)

  type State = map<string, Field>

  const TODOS := "carryoverTodos"
  const KEEP := "keep"
  const DROP := "drop"
  const CLUSTER := "cluster"

  datatype Applied = Applied(before: nat, after: nat, dropped: nat, clustered: nat)

  // ---------------------------------------------------------------- the decisions

  predicate WellFormed(d: Decision, blank: string -> bool) {
    && d.id != ""
    && d.decision in {"keep", "drop", "cluster"}
    && !blank(d.reason)
    && (d.decision == "cluster" ==> !blank(d.clusterGroup))
  }

  predicate DistinctIds(doc: seq<Decision>) { forall i, j :: 0 <= i < j < |doc| ==> doc[i].id != doc[j].id }

  predicate Valid(doc: seq<Decision>, blank: string -> bool) {
    DistinctIds(doc) && forall i :: 0 <= i < |doc| ==> WellFormed(doc[i], blank)
  }

  lemma WellFormedMeans(d: Decision, blank: string -> bool)
    ensures WellFormed(d, blank) <==>
      && d.id != "" && (d.decision == KEEP || d.decision == DROP || d.decision == CLUSTER)
      && !blank(d.reason) && !(d.decision == CLUSTER && blank(d.clusterGroup))
  {
  }

  method ValidateCarryoverDecisions(doc: seq<Decision>, blank: string -> bool) returns (ok: bool)
    ensures ok <==> Valid(doc, blank)
  {
    hide WellFormed;
    var seen := map[];
    for i := 0 to |doc|
      invariant forall k :: 0 <= k < i ==> WellFormed(doc[k], blank)
      invariant forall k :: 0 <= k < i ==> doc[k].id in seen
      invariant forall id :: id in seen ==> exists k :: 0 <= k < i && doc[k].id == id
      invariant DistinctIds(doc[..i])
    {
      WellFormedMeans(doc[i], blank);
      var d := doc[i];
      if d.id == "" {
        return false;
      }
      if d.id in seen {
        return false;
      }
      seen := seen[d.id := true];
      if d.decision != KEEP && d.decision != DROP && d.decision != CLUSTER {
        return false;
      }
      if blank(d.reason) {
        return false;
      }
      if d.decision == CLUSTER && blank(d.clusterGroup) {
        return false;
      }
    }
    assert doc[..|doc|] == doc;
    ok := true;
  }

  predicate Removes(d: Decision) { d.decision == DROP || d.decision == CLUSTER }

  /** The ids to remove, each with its decision. */
  function Removal(doc: seq<Decision>): map<string, string> {
    if doc == [] then map[]
    else
      var d, before := doc[|doc| - 1], Removal(doc[..|doc| - 1]);
      if Removes(d) then before[d.id := d.decision] else before
  }

  method RemovalOf(doc: seq<Decision>) returns (remove: map<string, string>)
    ensures remove == Removal(doc)
  {
    remove := map[];
    for i := 0 to |doc|
      invariant remove == Removal(doc[..i])
    {
      assert doc[..i + 1][..i] == doc[..i];
      if Removes(doc[i]) {
        remove := remove[doc[i].id := doc[i].decision];
      }
    }
    assert doc[..|doc|] == doc;
  }

  /** In a valid document an id is to be removed exactly when its one decision says so. */
  lemma {:induction false} RemovalIsDecided(doc: seq<Decision>, blank: string -> bool)
    requires Valid(doc, blank)
    ensures "" !in Removal(doc)
    ensures forall id :: id in Removal(doc) ==>
      Removal(doc)[id] in {"drop", "cluster"} && exists i :: 0 <= i < |doc| && doc[i].id == id && doc[i].decision == Removal(doc)[id]
    ensures forall i :: 0 <= i < |doc| && doc[i].decision in {"drop", "cluster"} ==>
      doc[i].id in Removal(doc) && Removal(doc)[doc[i].id] == doc[i].decision
  {
    if doc != [] {
      var front := doc[..|doc| - 1];
      RemovalIsDecided(front, blank);
      forall id | id in Removal(doc)
        ensures Removal(doc)[id] in {DROP, CLUSTER} && exists i :: 0 <= i < |doc| && doc[i].id == id && doc[i].decision == Removal(doc)[id]
      {
        if id in Removal(front) && !(Removes(doc[|doc| - 1]) && doc[|doc| - 1].id == id) {
          var i :| 0 <= i < |front| && front[i].id == id && front[i].decision == Removal(front)[id];
          assert doc[i] == front[i];
        }
      }
      forall i | 0 <= i < |doc| && Removes(doc[i])
        ensures doc[i].id in Removal(doc) && Removal(doc)[doc[i].id] == doc[i].decision
      {
        if i < |front| {
          assert front[i] == doc[i];
          assert doc[i].id != doc[|doc| - 1].id;
        }
      }
    }
  }

  // ---------------------------------------------------------------- the pass

  function TodosOf(s: State): seq<Entry> { if TODOS in s && s[TODOS].Entries? then s[TODOS].list else [] }

  function IdOf(e: Entry): string { if e.Item? && e.id.Some? then e.id.value else "" }

  /** What the removal map says of an entry, or the empty string. */
  function Fate(remove: map<string, string>, e: Entry): string {
    if e.Item? && IdOf(e) in remove then remove[IdOf(e)] else ""
  }

  function Kept(remove: map<string, string>): Entry -> bool { e => Fate(remove, e) !in {DROP, CLUSTER} }

  function Meets(remove: map<string, string>, fate: string): Entry -> bool { e => Fate(remove, e) == fate }

  function Sweep(entries: seq<Entry>, remove: map<string, string>): (seq<Entry>, Applied) {
    var kept := Filter(entries, Kept(remove));
    (kept, Applied(|entries|, |kept|, |Filter(entries, Meets(remove, DROP))|, |Filter(entries, Meets(remove, CLUSTER))|))
  }

  method SweepEntries(entries: seq<Entry>, remove: map<string, string>) returns (kept: seq<Entry>, res: Applied)
    ensures (kept, res) == Sweep(entries, remove)
  {
    kept := [];
    var dropped, clustered := 0, 0;
    for n := 0 to |entries|
      invariant kept == Filter(entries[..n], Kept(remove))
      invariant dropped == |Filter(entries[..n], Meets(remove, DROP))|
      invariant clustered == |Filter(entries[..n], Meets(remove, CLUSTER))|
    {
      var e := entries[n];
      assert entries[..n + 1] == entries[..n] + [e];
      FilterAppend(entries[..n], [e], Kept(remove));
      FilterAppend(entries[..n], [e], Meets(remove, DROP));
      FilterAppend(entries[..n], [e], Meets(remove, CLUSTER));
      if e.NotAnObject? {
        kept := kept + [e];
        continue;
      }
      var fate := Fate(remove, e);
      if fate == DROP {
        dropped := dropped + 1;
      } else if fate == CLUSTER {
        clustered := clustered + 1;
      } else {
        kept := kept + [e];
      }
    }
    assert entries[..|entries|] == entries;
    res := Applied(|entries|, |kept|, dropped, clustered);
  }

  /** Whether the removal map names none of the entries. */
  predicate NothingToDo(entries: seq<Entry>, remove: map<string, string>) {
    forall n :: 0 <= n < |entries| ==> Fate(remove, entries[n]) == ""
  }

  /** The state file, and whether it can be read and updated. */
  class StateFile {
    const exists_: bool
    const readable: bool
    const writable: bool
    var state: State

    constructor (exists_: bool, readable: bool, writable: bool, state: State)
      ensures this.exists_ == exists_ && this.readable == readable && this.writable == writable && this.state == state
    {
      this.exists_ := exists_;
      this.readable := readable;
      this.writable := writable;
      this.state := state;
    }

    method NoOpFastPath(remove: map<string, string>) returns (res: Option<Applied>)
      ensures res == if exists_ && readable && NothingToDo(TodosOf(state), remove)
                     then Some(Applied(|TodosOf(state)|, |TodosOf(state)|, 0, 0)) else None
    {
      if !exists_ || !readable {
        return None;
      }
      var entries := TodosOf(state);
      for n := 0 to |entries|
        invariant forall k :: 0 <= k < n ==> Fate(remove, entries[k]) == ""
      {
        if entries[n].Item? && Fate(remove, entries[n]) != "" {
          return None;
        }
      }
      res := Some(Applied(|entries|, |entries|, 0, 0));
    }

    /** Reports what the full pass would report, and writes only when an entry goes. */
    method ApplyCarryoverDecisions(doc: seq<Decision>) returns (res: Result<Applied>)
      modifies this
      ensures var entries, remove := TodosOf(old(state)), Removal(doc);
        var fast := readable && NothingToDo(entries, remove);
        && (res.Err? <==> !exists_ || (!fast && !(readable && writable)))
        && (res.Ok? ==> res.value == Sweep(entries, remove).1)
        && state == (if res.Err? || fast then old(state) else old(state)["carryoverTodos" := Entries(Sweep(entries, remove).0)])
    {
      var remove := RemovalOf(doc);
      if !exists_ {
        return Err;
      }
      var fast := NoOpFastPath(remove);
      if fast.Some? {
        NothingSwept(TodosOf(state), remove);
        return Ok(fast.value);
      }
      if !readable {
        return Err;
      }
      var kept, applied := SweepEntries(TodosOf(state), remove);
      if !writable {
        return Err;
      }
      state := state[TODOS := Entries(kept)];
      res := Ok(applied);
    }
  }

  // ---------------------------------------------------------------- what the pass means

  /** Whether the reviewed document removes an entry. */
  predicate Decided(doc: seq<Decision>, e: Entry, decision: string) {
    && e.Item? && e.id.Some?
    && exists i :: 0 <= i < |doc| && doc[i].id == e.id.value && doc[i].decision == decision
  }

  lemma FateIsDecided(doc: seq<Decision>, blank: string -> bool, e: Entry)
    requires Valid(doc, blank)
    ensures Fate(Removal(doc), e) == DROP <==> Decided(doc, e, DROP)
    ensures Fate(Removal(doc), e) == CLUSTER <==> Decided(doc, e, CLUSTER)
  {
    RemovalIsDecided(doc, blank);
    if Decided(doc, e, DROP) {
      var i :| 0 <= i < |doc| && doc[i].id == e.id.value && doc[i].decision == DROP;
      assert Removes(doc[i]);
    }
    if Decided(doc, e, CLUSTER) {
      var i :| 0 <= i < |doc| && doc[i].id == e.id.value && doc[i].decision == CLUSTER;
      assert Removes(doc[i]);
    }
  }

  function KeptBy(doc: seq<Decision>): Entry -> bool { e => !Decided(doc, e, "drop") && !Decided(doc, e, "cluster") }

  function DecidedBy(doc: seq<Decision>, decision: string): Entry -> bool { e => Decided(doc, e, decision) }

  lemma {:induction false} FilterAgrees(s: seq<Entry>, p: Entry -> bool, q: Entry -> bool)
    requires forall e :: p(e) == q(e)
    ensures Filter(s, p) == Filter(s, q)
  {
    if s != [] {
      FilterAgrees(s[1..], p, q);
    }
  }

  /** With a valid document, exactly the entries that it drops or clusters go, and the others stay in order. */
  lemma KeptExactly(doc: seq<Decision>, blank: string -> bool, entries: seq<Entry>)
    requires Valid(doc, blank)
    ensures var (kept, res) := Sweep(entries, Removal(doc));
      && kept == Filter(entries, KeptBy(doc))
      && res.dropped == |Filter(entries, DecidedBy(doc, "drop"))|
      && res.clustered == |Filter(entries, DecidedBy(doc, "cluster"))|
  {
    forall e
      ensures Kept(Removal(doc))(e) == KeptBy(doc)(e)
      ensures Meets(Removal(doc), DROP)(e) == DecidedBy(doc, DROP)(e)
      ensures Meets(Removal(doc), CLUSTER)(e) == DecidedBy(doc, CLUSTER)(e)
    {
      FateIsDecided(doc, blank, e);
    }
    FilterAgrees(entries, Kept(Removal(doc)), KeptBy(doc));
    FilterAgrees(entries, Meets(Removal(doc), DROP), DecidedBy(doc, DROP));
    FilterAgrees(entries, Meets(Removal(doc), CLUSTER), DecidedBy(doc, CLUSTER));
  }

  /** Every entry is counted once. */
  lemma {:induction false} EntriesAreConserved(entries: seq<Entry>, remove: map<string, string>)
    ensures var (kept, res) := Sweep(entries, remove);
      res.before == res.after + res.dropped + res.clustered && res.after == |kept|
  {
    if entries != [] {
      EntriesAreConserved(entries[1..], remove);
    }
  }

  /** Where the fast path applies, the full pass would keep every entry and count none. */
  lemma {:induction false} NothingSwept(entries: seq<Entry>, remove: map<string, string>)
    requires NothingToDo(entries, remove)
    ensures Sweep(entries, remove) == (entries, Applied(|entries|, |entries|, 0, 0))
  {
    if entries != [] {
      assert Fate(remove, entries[0]) == "";
      NothingSwept(entries[1..], remove);
      assert entries == [entries[0]] + entries[1..];
    }
  }

  /** There it would also leave the state as it is, exactly when the state already has a list: a missing list, or
      something else in its place, would become an empty list. */
  lemma FastPathKeepsState(s: State, remove: map<string, string>)
    requires NothingToDo(TodosOf(s), remove)
    ensures s["carryoverTodos" := Entries(Sweep(TodosOf(s), remove).0)] == s <==> "carryoverTodos" in s && s["carryoverTodos"].Entries?
  {
    NothingSwept(TodosOf(s), remove);
    var after := s[TODOS := Entries(TodosOf(s))];
    if TODOS in s && s[TODOS].Entries? {
      assert after == s;
    } else {
      assert TODOS in after && after[TODOS].Entries?;
    }
  }

  lemma {:induction false} KeptMeetsNothing(entries: seq<Entry>, remove: map<string, string>)
    requires forall id :: id in remove ==> remove[id] in {DROP, CLUSTER}
    ensures NothingToDo(Filter(entries, Kept(remove)), remove)
  {
    if entries != [] {
      KeptMeetsNothing(entries[1..], remove);
    }
  }

  /** A second application of a valid document takes the fast path: it changes nothing and counts nothing. */
  lemma SecondApplication(doc: seq<Decision>, blank: string -> bool, s: State)
    requires Valid(doc, blank)
    ensures var once := s[TODOS := Entries(Sweep(TodosOf(s), Removal(doc)).0)];
      && NothingToDo(TodosOf(once), Removal(doc))
      && Sweep(TodosOf(once), Removal(doc)) == (TodosOf(once), Applied(|TodosOf(once)|, |TodosOf(once)|, 0, 0))
  {
    RemovalIsDecided(doc, blank);
    KeptMeetsNothing(TodosOf(s), Removal(doc));
    NothingSwept(Filter(TodosOf(s), Kept(Removal(doc))), Removal(doc));
  }
}
