/** The loop that boots a stale binary: rebuild it, leave a marker, and exec it
    (go/cmd/evolve/cmd_loop_boot_refresh.go). */
module BootRefresh {
  import opened Base

  /** What one boot meets. A check that fails has no value. */
  datatype Boot = Boot(
    off: bool, binCommit: string, head: Option<string>, delta: Option<bool>, laneActive: Option<bool>,
    markerReadable: bool, markerRemovable: bool, onPlane: Option<bool>, rebuilds: bool,
    pinPresent: bool, repins: bool, markerWritable: bool, execs: bool)

  datatype Outcome = Booted(stale: bool, rebuilt: bool) | ReExeced

  predicate IsPrefix(a: string, b: string) { |a| <= |b| && b[..|a|] == a }

  predicate SameCommit(head: string, binCommit: string) { IsPrefix(binCommit, head) || IsPrefix(head, binCommit) }

  /** A stamp and HEAD name one commit exactly when one of them is the beginning of the other: a short stamp matches the
      full hash. */
  lemma SameCommitExactly(head: string, binCommit: string)
    ensures SameCommit(head, binCommit) <==>
      exists rest: string :: head == binCommit + rest || binCommit == head + rest
  {
    if IsPrefix(binCommit, head) {
      assert head == binCommit + head[|binCommit|..];
    }
    if IsPrefix(head, binCommit) {
      assert binCommit == head + binCommit[|head|..];
    }
  }

  /** A binary whose stamp is a short form of HEAD, or HEAD itself, is not stale, and its boot changes nothing. */
  lemma ShortStampIsFresh(marker: Option<string>, b: Boot, rest: string)
    requires b.head == Some(b.binCommit + rest)
    ensures OutcomeOf(marker, b) == Booted(false, false) && MarkerAfter(marker, b) == marker
  {
    SameCommitExactly(b.binCommit + rest, b.binCommit);
  }

  /** The head that the marker of an earlier boot names, if it can be read. */
  function Prior(marker: Option<string>, b: Boot): Option<string> { if b.markerReadable then marker else None }

  /** The staleness check, up to the lanes: the head to refresh to, if there is something to refresh. */
  function StaleHead(b: Boot): Option<string> {
    if !b.off && b.binCommit != "" && b.head.Some? && b.head.value != "" && !SameCommit(b.head.value, b.binCommit) && b.delta == Some(true)
    then b.head else None
  }

  predicate Idle(b: Boot) { StaleHead(b).Some? && b.laneActive == Some(false) }

  /** What stands between an idle stale boot and the exec, the marker aside. */
  predicate CanRebuild(b: Boot) { b.onPlane == Some(true) && b.rebuilds }

  predicate CanExec(b: Boot) { CanRebuild(b) && (b.pinPresent ==> b.repins) }

  predicate ReExecs(marker: Option<string>, b: Boot) {
    Idle(b) && Prior(marker, b) != StaleHead(b) && CanExec(b) && b.execs
  }

  function OutcomeOf(marker: Option<string>, b: Boot): Outcome {
    if ReExecs(marker, b) then ReExeced
    else Booted(StaleHead(b).Some?, Idle(b) && Prior(marker, b) != StaleHead(b) && CanRebuild(b))
  }

  /** The marker that a boot leaves. Only an idle stale boot touches it. */
  function MarkerAfter(marker: Option<string>, b: Boot): Option<string> {
    var removed := if b.markerRemovable then None else marker;
    if !Idle(b) then marker
    else if Prior(marker, b) == StaleHead(b) || !CanExec(b) then removed
    else
      var written := if b.markerWritable then StaleHead(b) else removed;
      if b.execs || !b.markerRemovable then written else None
  }

  /** The state directory, as far as a refresh changes it. */
  class EvolveDir {
    var marker: Option<string>

    constructor ()
      ensures marker == None
    {
      marker := None;
    }

    method RemoveMarker(works: bool)
      modifies this
      ensures marker == if works then None else old(marker)
    {
      if works {
        marker := None;
      }
    }

    /** A re-exec happens with no live lane and none that cannot be checked, from the plane's executable, after a
        rebuild, and with the ship pin absent or reconciled; the binary is behind HEAD with a source delta, and the
        marker, if it reads, does not name HEAD. */
    method BootBinaryRefresh(b: Boot) returns (r: Outcome)
      modifies this
      ensures r == OutcomeOf(old(marker), b)
      ensures marker == MarkerAfter(old(marker), b)
      ensures r == ReExeced ==>
        && b.laneActive == Some(false) && b.onPlane == Some(true) && b.rebuilds && (b.pinPresent ==> b.repins)
        && !b.off && b.delta == Some(true) && b.head.Some? && !SameCommit(b.head.value, b.binCommit)
        && (b.markerReadable ==> old(marker) != b.head) && (b.markerWritable ==> marker == b.head)
    {
      hide IsPrefix;
      r := Booted(false, false);
      if b.off {
        return;
      }
      if b.binCommit == "" {
        return;
      }
      if b.head == None || b.head.value == "" {
        return;
      }
      var head := b.head.value;
      if SameCommit(head, b.binCommit) {
        return;
      }
      if b.delta != Some(true) {
        return;
      }
      r := Booted(true, false);
      if b.laneActive != Some(false) {
        return;
      }
      var prior := if b.markerReadable then marker else None;
      RemoveMarker(b.markerRemovable);
      if prior == Some(head) {
        return;
      }
      if b.onPlane != Some(true) {
        return;
      }
      if !b.rebuilds {
        return;
      }
      r := Booted(true, true);
      if b.pinPresent && !b.repins {
        return;
      }
      if b.markerWritable {
        marker := Some(head);
      }
      if b.execs {
        return ReExeced;
      }
      RemoveMarker(b.markerRemovable);
    }
  }

  // ---------------------------------------------------------------- one launch

  /** Boots that follow each other on one state directory: `markers[i]` is the marker that boot `i` finds. */
  ghost predicate Boots(markers: seq<Option<string>>, boots: seq<Boot>) {
    && |markers| == |boots| + 1
    && forall i :: 0 <= i < |boots| ==> markers[i + 1] == MarkerAfter(markers[i], boots[i])
  }

  /** The boots of one launch: each but the last is there because the one before it re-exec'ed. */
  ghost predicate Launch(markers: seq<Option<string>>, boots: seq<Boot>) {
    Boots(markers, boots) && forall i :: 0 <= i < |boots| - 1 ==> ReExecs(markers[i], boots[i])
  }

  function ReExecCount(markers: seq<Option<string>>, boots: seq<Boot>): nat
    requires |markers| == |boots| + 1
  {
    if boots == [] then 0
    else (if ReExecs(markers[0], boots[0]) then 1 else 0) + ReExecCount(markers[1..], boots[1..])
  }

  function HeadChanges(boots: seq<Boot>): nat {
    if |boots| < 2 then 0
    else (if boots[0].head != boots[1].head then 1 else 0) + HeadChanges(boots[1..])
  }

  /** Every boot finds markers that can be written, or not, and can be read, or not. */
  predicate MarkersAre(boots: seq<Boot>, writable: bool, readable: bool) {
    forall i :: 0 <= i < |boots| ==> boots[i].markerWritable == writable && boots[i].markerReadable == readable
  }

  /** After a re-exec the next boot can re-exec only at another HEAD. */
  lemma NextReExecNeedsNewHead(marker: Option<string>, a: Boot, b: Boot)
    requires ReExecs(marker, a) && a.markerWritable && b.markerReadable
    requires ReExecs(MarkerAfter(marker, a), b)
    ensures a.head != b.head
  {
    hide SameCommit;
  }

  /** A launch whose markers work re-execs at most once more than HEAD changes between its boots. */
  lemma {:induction false} ReExecsAreBounded(markers: seq<Option<string>>, boots: seq<Boot>)
    requires Launch(markers, boots) && MarkersAre(boots, true, true)
    ensures ReExecCount(markers, boots) <= 1 + HeadChanges(boots)
    decreases |boots|
  {
    hide ReExecs, MarkerAfter;
    if |boots| >= 2 {
      ReExecsAreBounded(markers[1..], boots[1..]);
      if ReExecs(markers[1], boots[1]) {
        NextReExecNeedsNewHead(markers[0], boots[0], boots[1]);
      } else {
        assert |boots| == 2;
        assert ReExecCount(markers[1..], boots[1..]) == ReExecCount(markers[1..][1..], boots[1..][1..]);
        assert boots[1..][1..] == [];
      }
    } else if |boots| == 1 {
      assert boots[1..] == [];
    }
  }

  /** A rebuild that does not change the stamp: while HEAD stands still, a launch re-execs at most once. */
  lemma {:induction false} OneReExecPerHead(markers: seq<Option<string>>, boots: seq<Boot>)
    requires Launch(markers, boots) && MarkersAre(boots, true, true)
    requires forall i :: 0 <= i < |boots| - 1 ==> boots[i].head == boots[i + 1].head
    ensures ReExecCount(markers, boots) <= 1 && |boots| <= 2
  {
    hide ReExecs, MarkerAfter;
    NoHeadChanges(boots);
    ReExecsAreBounded(markers, boots);
    if |boots| > 2 {
      NextReExecNeedsNewHead(markers[0], boots[0], boots[1]);
    }
  }

  lemma {:induction false} NoHeadChanges(boots: seq<Boot>)
    requires forall i :: 0 <= i < |boots| - 1 ==> boots[i].head == boots[i + 1].head
    ensures HeadChanges(boots) == 0
  {
    if |boots| >= 2 {
      NoHeadChanges(boots[1..]);
    }
  }

  // ---------------------------------------------------------------- what the bound rests on

  /** A stale boot on the plane with nothing in its way but the state of its marker. */
  function Unbraked(head: string, binCommit: string, writable: bool, readable: bool): Boot {
    Boot(false, binCommit, Some(head), Some(true), Some(false), readable, true, Some(true), true, false, false, writable, true)
  }

  /** Such a boot re-execs on whatever marker it finds, unless markers both can be written and can be read. */
  lemma {:induction false} UnbrakedCount(markers: seq<Option<string>>, boots: seq<Boot>, b: Boot)
    requires |markers| == |boots| + 1 && (forall i :: 0 <= i < |boots| ==> boots[i] == b && ReExecs(markers[i], b))
    ensures ReExecCount(markers, boots) == |boots|
  {
    hide ReExecs;
    if boots != [] {
      UnbrakedCount(markers[1..], boots[1..], b);
    }
  }

  /** Where markers cannot be written, or cannot be read, a launch can re-exec any number of times at one HEAD. */
  lemma UnboundedWithoutMarkers(n: nat, head: string, binCommit: string, writable: bool, readable: bool)
    returns (markers: seq<Option<string>>, boots: seq<Boot>)
    requires head != "" && binCommit != "" && !SameCommit(head, binCommit)
    requires !(writable && readable)
    ensures Launch(markers, boots) && MarkersAre(boots, writable, readable) && |boots| == n
    ensures ReExecCount(markers, boots) == n && HeadChanges(boots) == 0
  {
    hide SameCommit;
    var b := Unbraked(head, binCommit, writable, readable);
    boots := seq(n, _ => b);
    markers := seq(n + 1, i => if i == 0 || !writable then None else Some(head));
    UnbrakedCount(markers, boots, b);
    NoHeadChanges(boots);
  }

  /** A bound on the re-execs of every launch with markers of one kind. */
  ghost predicate Bounded(writable: bool, readable: bool) {
    forall markers, boots :: Launch(markers, boots) && MarkersAre(boots, writable, readable) ==>
      ReExecCount(markers, boots) <= 1 + HeadChanges(boots)
  }

  /** The bound holds if and only if markers can be written and can be read. */
  lemma BoundNeedsMarkers(writable: bool, readable: bool)
    ensures Bounded(writable, readable) <==> writable && readable
  {
    hide MarkersAre, ReExecCount, HeadChanges, ReExecs, MarkerAfter;
    if writable && readable {
      forall markers, boots | Launch(markers, boots) && MarkersAre(boots, true, true)
        ensures ReExecCount(markers, boots) <= 1 + HeadChanges(boots)
      {
        ReExecsAreBounded(markers, boots);
      }
    } else {
      TwoCommits();
      var markers, boots := UnboundedWithoutMarkers(2, "b", "a", writable, readable);
    }
  }

  lemma TwoCommits()
    ensures !SameCommit("b", "a")
  {
    assert "b"[0] == 'b' && "a"[0] == 'a';
  }

  /** A boot that is current leaves the marker where it is. So after a refresh that worked, a later launch that is
      stale at the same HEAD again is refused once, though no rebuild failed, and the launch after that is not. */
  lemma LeftoverMarkerRefuses(marker: Option<string>, first: Boot, current: Boot, later: Boot, last: Boot)
    requires ReExecs(marker, first) && first.markerWritable
    requires StaleHead(current) == None
    requires Idle(later) && later.head == first.head && later.markerReadable && later.markerRemovable
    requires Idle(last) && CanExec(last) && last.execs
    ensures var m := MarkerAfter(MarkerAfter(marker, first), current);
      && OutcomeOf(m, later) == Booted(true, false)
      && ReExecs(MarkerAfter(m, later), last)
  {
    hide SameCommit;
  }
}
