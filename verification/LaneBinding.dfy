/** A fleet lane that takes its paused cycle back, and settles the bindings of the cycle's scope to earlier cycles
    (go/cmd/evolve/cmd_cycle_lane_resume.go, go/internal/core/defectledger/lineage.go). */
module LaneBinding {
  import opened Base

  /** The snapshot that a scope id is bound to: the cycle that left it, and the rest of the record. */
  datatype Continuation = Continuation(cycle: int, snapshot: string)

  type Registry = map<string, Continuation>

  /** The defect ledger of a cycle. */
  datatype Ledger = Unreadable | Missing | Rows(owesOne: bool)

  datatype Standing = Absent | Settled | Owed | CannotRead | Newer

  predicate Releasable(s: Standing) { s == Absent || s == Settled }

  function StandingOf(ledger: int -> Ledger, cycle: int, c: Continuation): Standing {
    if c.cycle > cycle then Newer
    else
      match ledger(c.cycle)
      case Unreadable => CannotRead
      case Missing => Absent
      case Rows(owesOne) => if owesOne then Owed else Settled
  }

  /** No ledger, or one that can be read and has no row that is owed. */
  predicate OwesNothing(ledger: int -> Ledger, cycle: int) { ledger(cycle) in {Missing, Rows(false)} }

  predicate Bound(r: Registry, readable: string -> bool, id: string) { id != "" && readable(id) && id in r }

  /** The first id that has a binding; an entry that cannot be read is passed over. */
  function FirstBinding(r: Registry, readable: string -> bool, ids: seq<string>): Option<string> {
    if ids == [] then None
    else if Bound(r, readable, ids[0]) then Some(ids[0])
    else FirstBinding(r, readable, ids[1..])
  }

  lemma {:induction false} FirstBindingIsFirst(r: Registry, readable: string -> bool, ids: seq<string>)
    ensures match FirstBinding(r, readable, ids)
      case Some(id) => Bound(r, readable, id) && exists n ::
          0 <= n < |ids| && ids[n] == id && forall j :: 0 <= j < n ==> !Bound(r, readable, ids[j])
      case None => forall j :: 0 <= j < |ids| ==> !Bound(r, readable, ids[j])
    ensures forall j :: 0 <= j < |ids| ==> (Bound(r, readable, ids[j]) <==> ids[j] in r && readable(ids[j]) && ids[j] != "")
  {
    if ids != [] && !Bound(r, readable, ids[0]) {
      FirstBindingIsFirst(r, readable, ids[1..]);
      var first := FirstBinding(r, readable, ids[1..]);
      if first.Some? {
        var n :| 0 <= n < |ids[1..]| && ids[1..][n] == first.value && forall j :: 0 <= j < n ==> !Bound(r, readable, ids[1..][j]);
        assert ids[n + 1] == first.value;
        forall j | 0 <= j < n + 1 ensures !Bound(r, readable, ids[j]) {
          if j > 0 {
            assert ids[j] == ids[1..][j - 1];
          }
        }
      } else {
        forall j | 0 <= j < |ids| ensures !Bound(r, readable, ids[j]) {
          if j > 0 {
            assert ids[j] == ids[1..][j - 1];
          }
        }
      }
    } else if ids != [] {
      assert ids[0] == FirstBinding(r, readable, ids).value;
    }
  }

  /** The ids of the scope that have a binding. */
  ghost function BoundIds(r: Registry, readable: string -> bool, ids: seq<string>): set<string> {
    set n | 0 <= n < |ids| && Bound(r, readable, ids[n]) :: ids[n]
  }

  lemma {:induction false} AtMostSoMany(r: Registry, readable: string -> bool, ids: seq<string>)
    ensures |BoundIds(r, readable, ids)| <= |ids|
  {
    if ids == [] {
      assert BoundIds(r, readable, ids) == {};
    } else {
      var front := ids[..|ids| - 1];
      var last := ids[|ids| - 1];
      AtMostSoMany(r, readable, front);
      var was, now := BoundIds(r, readable, front), BoundIds(r, readable, ids);
      assert now <= was + {last} by {
        forall id | id in now ensures id in was + {last} {
          var n :| 0 <= n < |ids| && Bound(r, readable, ids[n]) && ids[n] == id;
          if n < |front| {
            assert front[n] == id;
          }
        }
      }
      Smaller(now, was + {last});
    }
  }

  lemma {:induction false} Smaller(a: set<string>, b: set<string>)
    requires a <= b
    ensures |a| <= |b|
  {
    if a != {} {
      var x :| x in a;
      Smaller(a - {x}, b - {x});
    }
  }

  lemma Unbinding(r: Registry, readable: string -> bool, ids: seq<string>, id: string)
    requires FirstBinding(r, readable, ids) == Some(id)
    ensures |BoundIds(r - {id}, readable, ids)| < |BoundIds(r, readable, ids)|
    ensures Bound(r, readable, id) && id in ids
  {
    FirstBindingIsFirst(r, readable, ids);
    var was, now := BoundIds(r, readable, ids), BoundIds(r - {id}, readable, ids);
    assert id in was && id !in now;
    assert now <= was - {id};
    Smaller(now, was - {id});
  }

  lemma SomeBound(r: Registry, readable: string -> bool, ids: seq<string>)
    ensures FirstBinding(r, readable, ids).Some? ==> |BoundIds(r, readable, ids)| > 0
  {
    FirstBindingIsFirst(r, readable, ids);
    var first := FirstBinding(r, readable, ids);
    if first.Some? {
      Smaller({first.value}, BoundIds(r, readable, ids));
    }
  }

  // ---------------------------------------------------------------- the gate that settling is for

  datatype Gate = ManifestUnreadable | NotAContinuation | ManifestMissing | LineageDisagrees | Armed(c: Continuation)

  /** What the defect ledger's gate makes of a cycle's manifest and of the registry. */
  function GateOf(manifestReadable: bool, manifest: Option<Continuation>, registry: Option<Continuation>): Gate {
    if !manifestReadable then ManifestUnreadable
    else
      match manifest
      case None => if registry == None then NotAContinuation else ManifestMissing
      case Some(c) => if registry.Some? && registry.value.cycle != c.cycle then LineageDisagrees else Armed(c)
  }

  /** The gate is armed by a manifest that reads and does not name another cycle than the registry; without a manifest
      there is a continuation exactly when the registry has one. */
  lemma GateMeans(manifestReadable: bool, manifest: Option<Continuation>, registry: Option<Continuation>)
    ensures var gate := GateOf(manifestReadable, manifest, registry);
      && (gate == ManifestUnreadable <==> !manifestReadable)
      && (gate.Armed? <==> manifestReadable && manifest.Some? && (registry.Some? ==> registry.value.cycle == manifest.value.cycle))
      && (gate.Armed? ==> Some(gate.c) == manifest)
      && (gate == LineageDisagrees <==>
            manifestReadable && manifest.Some? && registry.Some? && registry.value.cycle != manifest.value.cycle)
      && (gate == ManifestMissing <==> manifestReadable && manifest == None && registry.Some?)
  {
  }

  function BindingOf(r: Registry, readable: string -> bool, ids: seq<string>): Option<Continuation> {
    FirstBindingKnown(r, readable, ids);
    match FirstBinding(r, readable, ids)
    case None => None
    case Some(id) => Some(r[id])
  }

  lemma FirstBindingKnown(r: Registry, readable: string -> bool, ids: seq<string>)
    ensures var f := FirstBinding(r, readable, ids); f.Some? ==> f.value in r
  {
    FirstBindingIsFirst(r, readable, ids);
  }

  // ---------------------------------------------------------------- settling

  /** What lies outside the lane: which entries, ledgers and files can be read and written. */
  datatype World = World(
    readable: string -> bool, ledger: int -> Ledger, unbinds: string -> bool,
    manifestReadable: bool, manifestWritable: bool,
    found: Option<int>, routed: string -> bool, admitted: bool,
    claimable: string -> bool, claims: bool, releases: bool)

  datatype Release = Release(id: string, c: Continuation, standing: Standing)

  ghost predicate RightlyReleased(x: Release, was: Registry, ids: seq<string>, cycle: int, w: World) {
    && x.id in ids && x.id in was && was[x.id] == x.c
    && x.c.cycle < cycle && OwesNothing(w.ledger, x.c.cycle)
  }

  // ---------------------------------------------------------------- claims

  const NOBODY := 0

  predicate Accepts(owners: map<string, int>, id: string, cycle: int, pending: bool) {
    id in owners && (owners[id] == cycle || (pending && owners[id] == NOBODY))
  }

  predicate Holds(owners: map<string, int>, scope: seq<string>, cycle: int) {
    forall n :: 0 <= n < |scope| ==> Accepts(owners, scope[n], cycle, false)
  }

  function Claimed(owners: map<string, int>, scope: seq<string>, cycle: int, w: World): map<string, int> {
    map id | id in owners :: if owners[id] == NOBODY && id in scope && w.claimable(id) then cycle else owners[id]
  }

  function GivenBack(owners: map<string, int>, cycle: int): map<string, int> {
    map id | id in owners :: if owners[id] == cycle then NOBODY else owners[id]
  }

  function Taken(owners: map<string, int>, others: map<string, int>): map<string, int> {
    map id | id in owners :: if owners[id] == NOBODY && id in others then others[id] else owners[id]
  }

  /** Nobody else has the item. */
  ghost predicate Untaken(owners: map<string, int>, id: string, cycle: int) {
    id in owners && (owners[id] == 0 || owners[id] == cycle)
  }

  /** The item was the cycle's own; or it was free, and the claim of another does not come first and it can be
      claimed. */
  ghost predicate ComesTo(owners: map<string, int>, others: map<string, int>, id: string, cycle: int, w: World) {
    && id in owners
    && (owners[id] == 0 || owners[id] == cycle)
    && (owners[id] == 0 ==> if id in others && others[id] != 0 then others[id] == cycle else w.claimable(id))
  }

  lemma HeldExactly(owners: map<string, int>, others: map<string, int>, scope: seq<string>, cycle: int, w: World)
    requires cycle != NOBODY
    ensures Holds(Claimed(Taken(owners, others), scope, cycle, w), scope, cycle)
       <==> forall n :: 0 <= n < |scope| ==> ComesTo(owners, others, scope[n], cycle, w)
  {
    var now := Claimed(Taken(owners, others), scope, cycle, w);
    forall n | 0 <= n < |scope|
      ensures Accepts(now, scope[n], cycle, false) <==> ComesTo(owners, others, scope[n], cycle, w)
    {
    }
  }

  /** No item that another cycle held changes hands. */
  predicate OthersKeep(was: map<string, int>, now: map<string, int>, cycle: int) {
    was.Keys == now.Keys && forall id :: id in was && was[id] != NOBODY && was[id] != cycle ==> now[id] == was[id]
  }

  class Lane {
    var registry: Registry
    var manifest: Option<Continuation>
    /** Who holds each item of the inbox: a cycle, or nobody (0). */
    var owners: map<string, int>
    var attempts: nat
    ghost var log: seq<Release>

    constructor (registry: Registry, owners: map<string, int>)
      ensures this.registry == registry && this.owners == owners && manifest == None && attempts == 0 && log == []
    {
      this.registry := registry;
      this.owners := owners;
      manifest := None;
      attempts := 0;
      log := [];
    }

    /** What `Settle` leaves behind when the manifest was absent. */
    ghost predicate SettledFor(cycle: int, ids: seq<string>, w: World)
      reads this
    {
      match BindingOf(registry, w.readable, ids)
      case None => manifest == None
      case Some(c) =>
        if c.cycle == cycle then manifest == None
        else
          && manifest == (if w.manifestWritable then Some(c) else None)
          && (c.cycle < cycle && OwesNothing(w.ledger, c.cycle) ==> !w.unbinds(FirstBinding(registry, w.readable, ids).value))
    }

    method ReleaseBinding(id: string, c: Continuation, standing: Standing, w: World) returns (released: bool)
      requires id in registry && registry[id] == c
      modifies this`registry, this`log
      ensures released == w.unbinds(id)
      ensures registry == if released then old(registry) - {id} else old(registry)
      ensures log == if released then old(log) + [Release(id, c, standing)] else old(log)
    {
      if w.unbinds(id) {
        registry := registry - {id};
        log := log + [Release(id, c, standing)];
      }
      released := w.unbinds(id);
    }

    method RecordBinding(c: Continuation, w: World)
      modifies this`manifest
      ensures manifest == if w.manifestWritable then Some(c) else old(manifest)
    {
      if w.manifestWritable {
        manifest := Some(c);
      }
    }

    /** Releases the bindings of the scope, first to last, while they need not be kept; records the first that must
        be kept. Nothing changes when there is a manifest already. */
    method Settle(cycle: int, ids: seq<string>, w: World)
      modifies this`registry, this`manifest, this`log
      ensures !w.manifestReadable || old(manifest).Some? ==> registry == old(registry) && manifest == old(manifest) && log == old(log)
      ensures w.manifestReadable && old(manifest) == None ==> SettledFor(cycle, ids, w)
      ensures old(log) <= log && |log| - |old(log)| <= |ids|
      ensures forall n :: |old(log)| <= n < |log| ==> RightlyReleased(log[n], old(registry), ids, cycle, w)
      ensures registry == old(registry) - (set n | |old(log)| <= n < |log| :: log[n].id)
    {
      if !w.manifestReadable || manifest.Some? {
        return;
      }
      hide FirstBinding, Bound, BoundIds, StandingOf, OwesNothing;
      ghost var was, start := registry, |log|;
      AtMostSoMany(registry, w.readable, ids);
      for n := 0 to |ids|
        invariant manifest == None
        invariant |BoundIds(registry, w.readable, ids)| <= |ids| - n
        invariant |log| == start + n && log[..start] == old(log)
        invariant forall k :: start <= k < |log| ==> RightlyReleased(log[k], was, ids, cycle, w)
        invariant registry == was - (set k | start <= k < |log| :: log[k].id)
      {
        var first := FirstBinding(registry, w.readable, ids);
        if first == None {
          return;
        }
        var id := first.value;
        Unbinding(registry, w.readable, ids, id);
        var c := registry[id];
        if c.cycle == cycle {
          return;
        }
        var standing := StandingOf(w.ledger, cycle, c);
        StandingMeans(w.ledger, cycle, c);
        if !Releasable(standing) {
          RecordBinding(c, w);
          return;
        }
        ghost var before := log;
        var released := ReleaseBinding(id, c, standing, w);
        if !released {
          RecordBinding(c, w);
          return;
        }
        OneReleaseMore(was, before, start, Release(id, c, standing));
      }
      SomeBound(registry, w.readable, ids);
    }

    // -------------------------------------------------------------- taking the paused cycle back

    /** Whether every id of the scope is in the inbox with an owner that is accepted, and passes a further check. */
    method Walk(scope: seq<string>, cycle: int, pending: bool, routed: string -> bool) returns (ok: bool)
      ensures ok <==> forall n :: 0 <= n < |scope| ==> Accepts(owners, scope[n], cycle, pending) && !routed(scope[n])
    {
      for n := 0 to |scope|
        invariant forall k :: 0 <= k < n ==> Accepts(owners, scope[k], cycle, pending) && !routed(scope[k])
      {
        if scope[n] !in owners {
          return false;
        }
        if !(owners[scope[n]] == cycle || (pending && owners[scope[n]] == NOBODY)) {
          return false;
        }
        if routed(scope[n]) {
          return false;
        }
      }
      ok := true;
    }

    method AdoptableBy(scope: seq<string>, cycle: int, w: World) returns (ok: bool)
      ensures ok <==> forall n :: 0 <= n < |scope| ==> Accepts(owners, scope[n], cycle, true) && !w.routed(scope[n])
    {
      ok := Walk(scope, cycle, true, w.routed);
    }

    method HeldBy(scope: seq<string>, cycle: int) returns (ok: bool)
      ensures ok <==> Holds(owners, scope, cycle)
    {
      ok := Walk(scope, cycle, false, _ => false);
    }

    /** Takes those pending items of the scope that the claimer gets, all or only some of them. */
    method Claim(scope: seq<string>, cycle: int, w: World) returns (ok: bool)
      modifies this`owners
      ensures ok == w.claims
      ensures owners == Claimed(old(owners), scope, cycle, w)
    {
      owners := Claimed(owners, scope, cycle, w);
      ok := w.claims;
    }

    /** Gives every item that the cycle holds back to the inbox. */
    method ReleaseClaims(cycle: int, w: World)
      modifies this`owners
      ensures owners == if w.releases then GivenBack(old(owners), cycle) else old(owners)
    {
      if w.releases {
        owners := GivenBack(owners, cycle);
      }
    }

    method Reclaim(scope: seq<string>, cycle: int, w: World) returns (ok: bool)
      modifies this`owners
      ensures ok <==> w.claims && Holds(Claimed(old(owners), scope, cycle, w), scope, cycle)
      ensures owners == if ok || !w.releases then Claimed(old(owners), scope, cycle, w)
                        else GivenBack(Claimed(old(owners), scope, cycle, w), cycle)
    {
      ok := Claim(scope, cycle, w);
      if ok {
        ok := HeldBy(scope, cycle);
      }
      if !ok {
        ReleaseClaims(cycle, w);
      }
    }

    /** The claims of other cycles that land before this one's. */
    method Meanwhile(others: map<string, int>)
      modifies this`owners
      ensures owners == Taken(old(owners), others)
    {
      owners := Taken(owners, others);
    }

    /** Takes back the paused cycle of the scope, or starts afresh. An attempt is spent exactly when the record admits
        one and every item was free or the cycle's own, with none for the operator; the cycle is taken back exactly
        when, besides, the claim succeeds and every item comes to it. A cycle that is taken back holds every item of
        its scope and its bindings are settled. Otherwise no binding and no manifest is touched, and where claims can
        be released the cycle holds nothing it did not hold before. */
    method Adopt(scope: seq<string>, laneIds: seq<string>, others: map<string, int>, w: World) returns (r: Option<int>)
      requires w.found.Some? ==> w.found.value != NOBODY
      modifies this
      ensures r.Some? <==>
        && scope != [] && w.found.Some? && w.admitted && w.claims
        && forall n :: 0 <= n < |scope| ==>
             && Untaken(old(owners), scope[n], w.found.value) && !w.routed(scope[n])
             && ComesTo(old(owners), others, scope[n], w.found.value, w)
      ensures attempts == (if scope != [] && w.found.Some? && w.admitted
          && forall n :: 0 <= n < |scope| ==> Untaken(old(owners), scope[n], w.found.value) && !w.routed(scope[n])
        then old(attempts) + 1 else old(attempts))
      ensures r.Some? ==> r == w.found && forall n :: 0 <= n < |scope| ==> scope[n] in owners && owners[scope[n]] == r.value
      ensures r.Some? ==> forall id :: id in owners && id !in scope && owners[id] == r.value ==>
        id in old(owners) && (old(owners)[id] == r.value || (id in others && others[id] == r.value))
      ensures r.Some? && w.manifestReadable && old(manifest) == None ==> SettledFor(r.value, laneIds, w)
      ensures r == None ==> registry == old(registry) && manifest == old(manifest) && log == old(log)
      ensures r == None && w.found.Some? && w.releases ==>
        forall id :: id in owners && owners[id] == w.found.value ==>
          id in old(owners) && old(owners)[id] == w.found.value && attempts == old(attempts)
      ensures attempts == old(attempts) ==> owners == old(owners)
      ensures attempts != old(attempts) ==>
        var claimed := Claimed(Taken(old(owners), others), scope, w.found.value, w);
        owners == if r.Some? || !w.releases then claimed else GivenBack(claimed, w.found.value)
      ensures w.found.Some? ==> OthersKeep(old(owners), owners, w.found.value)
    {
      r := None;
      if scope == [] {
        return;
      }
      if w.found == None {
        return;
      }
      var cycle := w.found.value;
      var ok := AdoptableBy(scope, cycle, w);
      if !ok {
        return;
      }
      if !w.admitted {
        return;
      }
      attempts := attempts + 1;
      Meanwhile(others);
      HeldExactly(old(owners), others, scope, cycle, w);
      ok := Reclaim(scope, cycle, w);
      if !ok {
        return;
      }
      Settle(cycle, laneIds, w);
      r := Some(cycle);
    }
  }

  lemma StandingMeans(ledger: int -> Ledger, cycle: int, c: Continuation)
    requires c.cycle != cycle
    ensures Releasable(StandingOf(ledger, cycle, c)) <==> c.cycle < cycle && OwesNothing(ledger, c.cycle)
  {
  }

  lemma OneReleaseMore(was: Registry, log: seq<Release>, start: nat, x: Release)
    requires start <= |log|
    ensures was - (set k | start <= k < |log| :: log[k].id) - {x.id}
         == was - (set k | start <= k < |log + [x]| :: (log + [x])[k].id)
  {
    var now := log + [x];
    var a, b := set k | start <= k < |log| :: log[k].id, set k | start <= k < |now| :: now[k].id;
    assert a + {x.id} == b by {
      forall id | id in a ensures id in b {
        var k :| start <= k < |log| && log[k].id == id;
        assert now[k].id == id;
      }
      assert now[|log|].id == x.id;
    }
  }

  /** After settling, with a manifest that can be written, the gate never finds that manifest and registry disagree;
      and it misses the manifest exactly when the first binding that is left is the cycle's own. */
  lemma GateAfterSettle(lane: Lane, cycle: int, ids: seq<string>, w: World)
    requires w.manifestReadable && w.manifestWritable && lane.SettledFor(cycle, ids, w)
    ensures var left := BindingOf(lane.registry, w.readable, ids);
      var gate := GateOf(true, lane.manifest, left);
      && gate != LineageDisagrees
      && (gate == ManifestMissing <==> left.Some? && left.value.cycle == cycle)
      && (gate.Armed? ==> left == Some(gate.c))
      && (gate.Armed? && gate.c.cycle < cycle && OwesNothing(w.ledger, gate.c.cycle) ==>
            !w.unbinds(FirstBinding(lane.registry, w.readable, ids).value))
  {
  }
}
