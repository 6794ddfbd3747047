/** prepareBoundaryLog as one process executes it (go/cmd/evolve/cmd_boundary_log.go): the calls in order, each
    of which can fail. LogLinks treats the same calls as interleaved steps. */
module BoundaryLog {
  import opened Base
  import opened LogLinks

  datatype Status = Ready | Live | IOError

  /** Calls so far, as a run of LogLinks: one disk and one process state for each. */
  ghost predicate Traced(disks: seq<Disk>, procs: seq<Process>, names: Disk, pid: nat, run: RunId, step: Step) {
    && Solo(disks, procs)
    && disks[|disks| - 1] == names && procs[|procs| - 1] == Process(pid, run, step)
  }

  lemma TraceStep(disks: seq<Disk>, procs: seq<Process>, d: Disk, pid: nat, run: RunId, step: Step, e: Disk, next: Step)
    requires Traced(disks, procs, d, pid, run, step)
    requires Steps(d, Process(pid, run, step), e, Process(pid, run, next))
    ensures Traced(disks + [e], procs + [Process(pid, run, next)], e, pid, run, next)
  {
    hide Steps;
    var n := |procs|;
    var ds, ps := disks + [e], procs + [Process(pid, run, next)];
    forall k | 0 <= k < n ensures Steps(ds[k], ps[k], ds[k + 1], ps[k + 1]) {
      if k < n - 1 {
        assert Steps(disks[k], procs[k], disks[k + 1], procs[k + 1]);
      }
    }
  }

  /** The loop log is a file of its own, not yet a link. */
  ghost predicate LogIsFile(d: Disk) { LoopLog in d && d[LoopLog].Regular? }

  // What can be in the way.

  /** A regular loop log cannot be moved: the legacy directory is something else, or the legacy name is taken. */
  ghost predicate LegacyBlocked(d: Disk, run: RunId) {
    && LogIsFile(d)
    && (|| (LegacyDir(run) in d && d[LegacyDir(run)] != Directory)
        || (LegacyLog(run) in d && d[LegacyLog(run)] != d[LoopLog]))
  }

  ghost predicate LinkBlocked(d: Disk, path: Name, pid: nat) {
    (path in d && d[path] == Directory) || (Temp(path, pid) in d && d[Temp(path, pid)] == Directory)
  }

  ghost predicate Blocked(d: Disk, run: RunId, pid: nat) {
    || LegacyBlocked(d, run)
    || (RunDir(run) in d && d[RunDir(run)] != Directory)
    || LinkBlocked(d, Current, pid)
    || LinkBlocked(d, LoopLog, pid)
  }

  ghost function LegacyMoved(d: Disk, run: RunId): Disk
    requires LoopLog in d
  {
    d[LegacyDir(run) := Directory][LegacyLog(run) := d[LoopLog]] - {LoopLog}
  }

  ghost function OwnNames(run: RunId, pid: nat): set<Name> {
    {LoopLog, Current, LegacyDir(run), LegacyLog(run), RunDir(run), Temp(LoopLog, pid), Temp(Current, pid)}
  }

  /** One of the calls failed for no reason of its own. */
  ghost predicate Faulted(faulty: nat -> bool, first: nat, last: nat) { exists k :: first <= k < last && faulty(k) }

  lemma FaultedAt(faulty: nat -> bool, first: nat, k: nat, last: nat)
    requires first <= k < last && faulty(k)
    ensures Faulted(faulty, first, last)
  {
  }

  lemma FaultedWithin(faulty: nat -> bool, first: nat, a: nat, b: nat, last: nat)
    requires first <= a && b <= last
    ensures Faulted(faulty, a, b) ==> Faulted(faulty, first, last)
  {
  }

  ghost predicate Unchanged(d: Disk, e: Disk, n: Name) { (n in d <==> n in e) && (n in d ==> e[n] == d[n]) }

  ghost predicate OnlyChanges(d: Disk, e: Disk, own: set<Name>) { forall n :: n !in own ==> Unchanged(d, e, n) }

  lemma OnlyThese(d: Disk, e: Disk, own: set<Name>, n: Name)
    requires OnlyChanges(d, e, own) && n !in own
    ensures Unchanged(d, e, n)
  {
  }

  lemma OnlyChangesOnward(d: Disk, e: Disk, f: Disk, own: set<Name>, more: set<Name>)
    requires OnlyChanges(d, e, own) && OnlyChanges(e, f, more) && more <= own
    ensures OnlyChanges(d, f, own)
  {
    forall n | n !in own ensures Unchanged(d, f, n) {
      assert Unchanged(d, e, n) && Unchanged(e, f, n);
    }
  }

  lemma OnlyOneChanges(d: Disk, n: Name, x: Node)
    ensures OnlyChanges(d, d[n := x], {n}) && OnlyChanges(d, d - {n}, {n})
  {
  }

  lemma OnlyChangesMore(d: Disk, e: Disk, own: set<Name>, more: set<Name>)
    requires OnlyChanges(d, e, own) && own <= more
    ensures OnlyChanges(d, e, more)
  {
  }

  lemma NothingChanges(d: Disk, own: set<Name>)
    ensures OnlyChanges(d, d, own)
  {
  }

  class FileSystem {
    var names: Disk

    /** Counts the calls; `faulty` decides which of them fail for no reason of their own. */
    var calls: nat
    const faulty: nat -> bool

    /** The run so far, and who makes it. */
    ghost var disks: seq<Disk>
    ghost var procs: seq<Process>

    ghost predicate At(pid: nat, run: RunId, step: Step)
      reads this
    {
      Traced(disks, procs, names, pid, run, step)
    }

    constructor (names: Disk, faulty: nat -> bool)
      ensures this.names == names && this.faulty == faulty
    {
      this.names, this.faulty, calls := names, faulty, 0;
      disks, procs := [], [];
    }

    /** Records the step that the last call was. */
    ghost method Took(was: Disk, pid: nat, run: RunId, step: Step, next: Step)
      requires Traced(disks, procs, was, pid, run, step)
      requires Steps(was, Process(pid, run, step), names, Process(pid, run, next))
      modifies this`disks, this`procs
      ensures At(pid, run, next) && old(disks) <= disks
    {
      TraceStep(disks, procs, was, pid, run, step, names, next);
      disks, procs := disks + [names], procs + [Process(pid, run, next)];
    }

    method Mkdir(n: Name) returns (ok: bool)
      modifies this`names, this`calls
      ensures ok <==> (n in old(names) ==> old(names)[n] == Directory) && !faulty(old(calls))
      ensures names == if ok then old(names)[n := Directory] else old(names)
      ensures calls == old(calls) + 1
    {
      ok := CanMkdir(names, n) && !faulty(calls);
      calls := calls + 1;
      if ok { names := names[n := Directory]; }
    }

    method Link(from: Name, to: Name) returns (ok: bool)
      modifies this`names, this`calls
      ensures ok <==> from in old(names) && old(names)[from] != Directory && to !in old(names) && !faulty(old(calls))
      ensures names == if ok then old(names)[to := old(names)[from]] else old(names)
      ensures calls == old(calls) + 1
    {
      ok := CanLink(names, from, to) && !faulty(calls);
      calls := calls + 1;
      if ok { names := names[to := names[from]]; }
    }

    method Unlink(n: Name) returns (ok: bool)
      modifies this`names, this`calls
      ensures ok <==> n in old(names) && old(names)[n] != Directory && !faulty(old(calls))
      ensures names == if ok then old(names) - {n} else old(names)
      ensures calls == old(calls) + 1
    {
      ok := CanUnlink(names, n) && !faulty(calls);
      calls := calls + 1;
      if ok { names := names - {n}; }
    }

    method MakeSymlink(target: Target, n: Name) returns (ok: bool)
      modifies this`names, this`calls
      ensures ok <==> n !in old(names) && !faulty(old(calls))
      ensures names == if ok then old(names)[n := Symlink(target)] else old(names)
      ensures calls == old(calls) + 1
    {
      ok := n !in names && !faulty(calls);
      calls := calls + 1;
      if ok { names := names[n := Symlink(target)]; }
    }

    method Rename(from: Name, to: Name) returns (ok: bool)
      modifies this`names, this`calls
      ensures ok <==> from in old(names) && !(to in old(names) && old(names)[to] == Directory) && !faulty(old(calls))
      ensures names == if ok then (old(names) - {from})[to := old(names)[from]] else old(names)
      ensures calls == old(calls) + 1
    {
      ok := CanRename(names, from, to) && !faulty(calls);
      calls := calls + 1;
      if ok { names := Renamed(names, from, to); }
    }

    /** Moves a regular loop log to the legacy name of the run, never over a file that is there. */
    method MoveLegacyLoopLog(run: RunId, live: bool, ghost pid: nat) returns (status: Status)
      requires At(pid, run, Inspect)
      modifies this
      ensures At(pid, run, if status == Ready then MakeRunDir else Refused) && old(disks) <= disks
      ensures status == Live <==> LogIsFile(old(names)) && live
      ensures status == Live || !LogIsFile(old(names)) ==> names == old(names)
      ensures !LogIsFile(old(names)) ==> status == Ready
      ensures LegacyBlocked(old(names), run) && !live ==> status == IOError
      ensures status == IOError ==> LegacyBlocked(old(names), run) || Faulted(faulty, old(calls), calls)
      ensures status == Ready && LogIsFile(old(names)) ==> names == LegacyMoved(old(names), run)
      ensures OnlyChanges(old(names), names, {LoopLog, LegacyDir(run), LegacyLog(run)})
      ensures old(calls) <= calls
    {
      hide Traced, Steps, OnlyChanges, Faulted;
      ghost var start := names;
      LookSteps(start, pid, run);
      NothingChanges(start, {LoopLog, LegacyDir(run), LegacyLog(run)});
      if !IsRegular(names, LoopLog) {
        Took(names, pid, run, Inspect, MakeRunDir);
        return Ready;
      }
      Took(names, pid, run, Inspect, AskLive);
      if live {
        Took(names, pid, run, AskLive, Refused);
        return Live;
      }
      Took(names, pid, run, AskLive, MakeLegacyDir);
      status := MoveRegularLog(run, pid);
    }

    /** The rest of it, for a regular loop log. */
    method MoveRegularLog(run: RunId, ghost pid: nat) returns (status: Status)
      requires At(pid, run, MakeLegacyDir) && IsRegular(names, LoopLog)
      modifies this
      ensures At(pid, run, if status == Ready then MakeRunDir else Refused) && old(disks) <= disks
      ensures status == Ready || status == IOError
      ensures LegacyBlocked(old(names), run) ==> status == IOError
      ensures status == IOError ==> LegacyBlocked(old(names), run) || Faulted(faulty, old(calls), calls)
      ensures status == Ready ==> names == LegacyMoved(old(names), run)
      ensures OnlyChanges(old(names), names, {LoopLog, LegacyDir(run), LegacyLog(run)})
      ensures old(calls) <= calls
    {
      hide Traced, Steps, OnlyChanges, Faulted;
      ghost var start, n := names, calls;
      MoveFrame(start, run);
      MoveSteps(names, pid, run);
      var made := Mkdir(LegacyDir(run));
      Took(start, pid, run, MakeLegacyDir, if made then LinkLegacy else Refused);
      if !made {
        if faulty(n) {
          FaultedAt(faulty, old(calls), n, calls);
        }
        return IOError;
      }
      ghost var was := names;
      MoveSteps(was, pid, run);
      n := calls;
      var linked := Link(LoopLog, LegacyLog(run));
      if !linked && !SameFile(names, LoopLog, LegacyLog(run)) {
        Took(was, pid, run, LinkLegacy, Refused);
        if faulty(n) {
          FaultedAt(faulty, old(calls), n, calls);
        }
        return IOError;
      }
      Took(was, pid, run, LinkLegacy, UnlinkLoopLog);
      was := names;
      assert was == start[LegacyDir(run) := Directory][LegacyLog(run) := start[LoopLog]];
      MoveSteps(was, pid, run);
      n := calls;
      var removed := Unlink(LoopLog);
      Took(was, pid, run, UnlinkLoopLog, if removed then MakeRunDir else Refused);
      if faulty(n) {
        FaultedAt(faulty, old(calls), n, calls);
      }
      status := if removed then Ready else IOError;
    }

    /** Points `path` at `target` by renaming a fresh link over it. */
    method ReplaceSymlink(target: Target, path: Name, pid: nat, ghost run: RunId, ghost second: bool) returns (ok: bool)
      requires At(pid, run, ClearTemp(second))
      requires path == PathOf(second) && target == TargetOf(Process(pid, run, ClearTemp(second)), second)
      modifies this
      ensures At(pid, run, if !ok then Refused else if second then Done else ClearTemp(true)) && old(disks) <= disks
      ensures ok ==> names == (old(names) - {Temp(path, pid)})[path := Symlink(target)]
      ensures !ok ==> OnlyChanges(old(names), names, {Temp(path, pid)})
      ensures LinkBlocked(old(names), path, pid) ==> !ok
      ensures !ok ==> LinkBlocked(old(names), path, pid) || Faulted(faulty, old(calls), calls)
      ensures old(calls) <= calls
    {
      hide Traced, Steps, PathOf, TargetOf, Solo, OnlyChanges, Faulted;
      var temp := Temp(path, pid);
      NotItsOwnTemp(path, pid);
      ghost var was := names;
      NothingChanges(was, {temp});
      if temp in names {
        ghost var n := calls;
        var cleared := Unlink(temp);
        if !cleared {
          LinkFails(was, pid, run, ClearTemp(second), Refused);
          Took(was, pid, run, ClearTemp(second), Refused);
          if faulty(n) {
            FaultedAt(faulty, old(calls), n, calls);
          }
          return false;
        }
      }
      assert names == was - {temp};
      TempCleared(was, pid, run, second);
      Took(was, pid, run, ClearTemp(second), MakeTemp(second));
      ghost var n := calls;
      ok := Relink(target, path, pid, run, second);
      FaultedWithin(faulty, old(calls), n, calls, calls);
      if !ok {
        OnlyTheTemp(was, names, temp);
      }
    }

    /** The rest of it, once the temporary name is free. */
    method Relink(target: Target, path: Name, pid: nat, ghost run: RunId, ghost second: bool) returns (ok: bool)
      requires At(pid, run, MakeTemp(second)) && Temp(path, pid) !in names
      requires path == PathOf(second) && target == TargetOf(Process(pid, run, ClearTemp(second)), second)
      modifies this
      ensures At(pid, run, if !ok then Refused else if second then Done else ClearTemp(true)) && old(disks) <= disks
      ensures ok ==> names == old(names)[path := Symlink(target)] && !(path in old(names) && old(names)[path] == Directory)
      ensures !ok ==> names - {Temp(path, pid)} == old(names)
      ensures !ok ==> (path in old(names) && old(names)[path] == Directory) || Faulted(faulty, old(calls), calls)
      ensures old(calls) <= calls
    {
      hide Traced, Steps, PathOf, TargetOf, Solo, Faulted, LegacyBlocked, LinkBlocked, Blocked, Unchanged, OnlyChanges, LegacyMoved, OwnNames;
      var temp := Temp(path, pid);
      NotItsOwnTemp(path, pid);
      ghost var was := names;
      var made := MakeSymlink(target, temp);
      if !made {
        LinkFails(was, pid, run, MakeTemp(second), Refused);
        Took(was, pid, run, MakeTemp(second), Refused);
        FaultedAt(faulty, old(calls), old(calls), calls);
        return false;
      }
      ghost var linked := names;
      SwitchedDisk(was, temp, path, Symlink(target));
      TempMade(was, pid, run, second);
      Took(was, pid, run, MakeTemp(second), Switch(second));
      ghost var n := calls;
      ok := Rename(temp, path);
      if ok {
        Switched(linked, pid, run, second);
        Took(linked, pid, run, Switch(second), if second then Done else ClearTemp(true));
        return;
      }
      LinkFails(linked, pid, run, Switch(second), DropTemp(second));
      Took(linked, pid, run, Switch(second), DropTemp(second));
      var dropped := Unlink(temp);
      TempDropped(linked, names, pid, run, second);
      Took(linked, pid, run, DropTemp(second), Refused);
      if faulty(n) {
        FaultedAt(faulty, old(calls), n, calls);
      }
    }

    method MakeLinks(run: RunId, pid: nat) returns (ok: bool)
      requires At(pid, run, ClearTemp(false))
      modifies this
      ensures At(pid, run, if ok then Done else Refused) && old(disks) <= disks
      ensures LinkBlocked(old(names), Current, pid) || LinkBlocked(old(names), LoopLog, pid) ==> !ok
      ensures !ok ==>
        LinkBlocked(old(names), Current, pid) || LinkBlocked(old(names), LoopLog, pid) || Faulted(faulty, old(calls), calls)
      ensures OnlyChanges(old(names), names, {LoopLog, Current, Temp(LoopLog, pid), Temp(Current, pid)})
      ensures old(calls) <= calls
    {
      hide Traced, Steps, Faulted, OnlyChanges, LinkBlocked;
      ghost var start, own := names, {LoopLog, Current, Temp(LoopLog, pid), Temp(Current, pid)};
      var first := ReplaceSymlink(ToRun(run), Current, pid, run, false);
      ghost var was, n := names, calls;
      LinkFrame(start, was, Current, pid, ToRun(run), first);
      FirstLinkFrame(start, was, run, pid);
      OnlyChangesMore(start, was, {Current, Temp(Current, pid)}, own);
      if !first {
        return false;
      }
      ok := ReplaceSymlink(ToCurrentLog, LoopLog, pid, run, true);
      FaultedWithin(faulty, old(calls), n, calls, calls);
      LinkFrame(was, names, LoopLog, pid, ToCurrentLog, ok);
      OnlyChangesOnward(start, was, names, own, {LoopLog, Temp(LoopLog, pid)});
    }

    method MakeCalls(run: RunId, pid: nat, live: bool) returns (status: Status)
      requires At(pid, run, Inspect)
      modifies this
      ensures At(pid, run, if status == Ready then Done else Refused) && old(disks) <= disks
      ensures status == Live <==> LogIsFile(old(names)) && live
      ensures status == Live ==> names == old(names)
      ensures Blocked(old(names), run, pid) && status != Live ==> status == IOError
      ensures status == IOError ==> Blocked(old(names), run, pid) || Faulted(faulty, old(calls), calls)
      ensures status == Ready ==> RunDir(run) in names && names[RunDir(run)] == Directory
      ensures OnlyChanges(old(names), names, OwnNames(run, pid))
      ensures old(calls) <= calls
    {
      hide Traced, Steps, Faulted, OnlyChanges;
      ghost var d0, own := names, OwnNames(run, pid);
      status := MoveLegacyLoopLog(run, live, pid);
      ghost var d1 := names;
      OnlyChangesMore(d0, d1, {LoopLog, LegacyDir(run), LegacyLog(run)}, own);
      if status != Ready {
        return;
      }
      BlockedAfterMove(d0, d1, run, pid);
      ghost var n := calls;
      var made := Mkdir(RunDir(run));
      MkdirSteps(d1, pid, run);
      Took(d1, pid, run, MakeRunDir, if made then ClearTemp(false) else Refused);
      if !made {
        if faulty(n) {
          FaultedAt(faulty, old(calls), n, calls);
        }
        return IOError;
      }
      ghost var d2 := names;
      OnlyOneChanges(d1, RunDir(run), Directory);
      OnlyChangesOnward(d0, d1, d2, own, {RunDir(run)});
      n := calls;
      var linked := MakeLinks(run, pid);
      FaultedWithin(faulty, old(calls), n, calls, calls);
      OnlyThese(d2, names, {LoopLog, Current, Temp(LoopLog, pid), Temp(Current, pid)}, RunDir(run));
      OnlyChangesOnward(d0, d2, names, own, {LoopLog, Current, Temp(LoopLog, pid), Temp(Current, pid)});
      status := if linked then Ready else IOError;
    }

    /** The calls it makes are a run of the protocol, and a complete one exactly on success; so all that LogLinks
        says of runs holds of it. It reports a live run exactly when a lane is live over a regular loop log, and fails
        otherwise when a name is in the way, and only then or when a call failed; where no call fails of itself it
        succeeds exactly when nothing is in the way. On success the loop log reads through the current link into
        the run directory. However it ends, a legacy log keeps a name, no file at a legacy name is replaced, and
        no name but its own changes. */
    method PrepareBoundaryLog(run: RunId, pid: nat, live: bool) returns (status: Status)
      modifies this
      ensures At(pid, run, if status == Ready then Done else Refused) && disks[0] == old(names)
      ensures status == Live <==> LogIsFile(old(names)) && live
      ensures status == Live ==> names == old(names)
      ensures Blocked(old(names), run, pid) && status != Live ==> status == IOError
      ensures status == IOError ==> Blocked(old(names), run, pid) || Faulted(faulty, old(calls), calls)
      ensures (forall k :: !faulty(k)) ==>
        (status == Ready <==> !(LogIsFile(old(names)) && live) && !Blocked(old(names), run, pid))
      ensures OnlyChanges(old(names), names, OwnNames(run, pid))
      ensures status == Ready ==>
        && RunDir(run) in names && names[RunDir(run)] == Directory
        && Current in names && names[Current] == Symlink(ToRun(run))
        && LoopLog in names && names[LoopLog] == Symlink(ToCurrentLog)
        && (LogIsFile(old(names)) ==> LegacyLog(run) in names && names[LegacyLog(run)] == old(names)[LoopLog])
      ensures forall inode :: Named(old(names), inode) ==> Named(names, inode)
      ensures LegaciesKept(old(names), names)
    {
      hide Named, LegaciesKept, Steps;
      disks, procs := [names], [Process(pid, run, Inspect)];
      ghost var start := disks;
      status := MakeCalls(run, pid, live);
      assert start[0] == disks[0];
      RunKeeps(disks, procs, |procs| - 1);
      if status == Ready {
        CompleteRun(disks, procs);
      }
      SoloRun(disks, procs, |procs| - 1);
    }
  }

  lemma SoloRun(disks: seq<Disk>, procs: seq<Process>, k: nat)
    requires Solo(disks, procs) && k < |procs|
    ensures procs[k].run == procs[0].run
  {
    SoloInv(disks, procs, k);
  }

  predicate KeptAt(d: Disk, e: Disk, n: Name) { n in d ==> n in e && e[n] == d[n] }

  ghost predicate LegaciesKept(d: Disk, e: Disk) { forall r :: KeptAt(d, e, LegacyLog(r)) }

  // The steps of moving the log and of replacing a link, as LogLinks has them.

  lemma LookSteps(d: Disk, pid: nat, run: RunId)
    ensures Steps(d, Process(pid, run, Inspect), d, Process(pid, run, if IsRegular(d, LoopLog) then AskLive else MakeRunDir))
    ensures Steps(d, Process(pid, run, AskLive), d, Process(pid, run, MakeLegacyDir))
    ensures Steps(d, Process(pid, run, AskLive), d, Process(pid, run, Refused))
  {
  }

  lemma MoveSteps(d: Disk, pid: nat, run: RunId)
    ensures (LegacyDir(run) in d ==> d[LegacyDir(run)] == Directory) ==>
      Steps(d, Process(pid, run, MakeLegacyDir), d[LegacyDir(run) := Directory], Process(pid, run, LinkLegacy))
    ensures Steps(d, Process(pid, run, MakeLegacyDir), d, Process(pid, run, Refused))
    ensures LoopLog in d && d[LoopLog] != Directory && LegacyLog(run) !in d ==>
      Steps(d, Process(pid, run, LinkLegacy), d[LegacyLog(run) := d[LoopLog]], Process(pid, run, UnlinkLoopLog))
    ensures Steps(d, Process(pid, run, LinkLegacy), d,
                  Process(pid, run, if SameFile(d, LoopLog, LegacyLog(run)) then UnlinkLoopLog else Refused))
    ensures LoopLog in d && d[LoopLog] != Directory ==>
      Steps(d, Process(pid, run, UnlinkLoopLog), d - {LoopLog}, Process(pid, run, MakeRunDir))
    ensures Steps(d, Process(pid, run, UnlinkLoopLog), d, Process(pid, run, Refused))
  {
  }

  /** The disks along the way differ in three names only. */
  lemma MoveFrame(d: Disk, run: RunId)
    requires LoopLog in d
    ensures var own, e := {LoopLog, LegacyDir(run), LegacyLog(run)}, d[LegacyDir(run) := Directory];
      && OnlyChanges(d, d, own) && OnlyChanges(d, e, own) && OnlyChanges(d, e[LegacyLog(run) := d[LoopLog]], own)
      && OnlyChanges(d, LegacyMoved(d, run), own)
  {
  }

  lemma LinkFails(d: Disk, pid: nat, run: RunId, step: Step, next: Step)
    requires next == if step.Switch? then DropTemp(step.second) else Refused
    requires step.ClearTemp? || step.MakeTemp? || step.Switch? || step.DropTemp?
    ensures Steps(d, Process(pid, run, step), d, Process(pid, run, next))
  {
  }

  lemma MkdirSteps(d: Disk, pid: nat, run: RunId)
    ensures (RunDir(run) in d ==> d[RunDir(run)] == Directory) ==>
      Steps(d, Process(pid, run, MakeRunDir), d[RunDir(run) := Directory], Process(pid, run, ClearTemp(false)))
    ensures Steps(d, Process(pid, run, MakeRunDir), d, Process(pid, run, Refused))
  {
  }

  lemma FirstLinkFrame(d: Disk, e: Disk, run: RunId, pid: nat)
    requires OnlyChanges(d, e, {Current, Temp(Current, pid)})
    ensures LinkBlocked(d, LoopLog, pid) <==> LinkBlocked(e, LoopLog, pid)
    ensures Unchanged(d, e, RunDir(run))
  {
    assert Unchanged(d, e, LoopLog) && Unchanged(d, e, Temp(LoopLog, pid)) && Unchanged(d, e, RunDir(run));
  }

  /** What is in the way of the later calls was so from the start. */
  lemma BlockedAfterMove(d: Disk, e: Disk, run: RunId, pid: nat)
    requires !LegacyBlocked(d, run)
    requires e == if IsRegular(d, LoopLog) then LegacyMoved(d, run) else d
    ensures Blocked(d, run, pid) <==>
      (RunDir(run) in e && e[RunDir(run)] != Directory) || LinkBlocked(e, Current, pid) || LinkBlocked(e, LoopLog, pid)
  {
  }

  lemma TempCleared(d: Disk, pid: nat, run: RunId, second: bool)
    ensures var temp := Temp(PathOf(second), pid);
      (temp in d && d[temp] != Directory ==> Steps(d, Process(pid, run, ClearTemp(second)), d - {temp}, Process(pid, run, MakeTemp(second))))
      && (temp !in d ==> Steps(d, Process(pid, run, ClearTemp(second)), d, Process(pid, run, MakeTemp(second))))
  {
  }

  lemma TempMade(d: Disk, pid: nat, run: RunId, second: bool)
    ensures var temp, target := Temp(PathOf(second), pid), TargetOf(Process(pid, run, ClearTemp(second)), second);
      temp !in d ==>
        Steps(d, Process(pid, run, MakeTemp(second)), d[temp := Symlink(target)], Process(pid, run, Switch(second)))
  {
  }

  lemma Switched(d: Disk, pid: nat, run: RunId, second: bool)
    ensures var temp := Temp(PathOf(second), pid);
      temp in d && !(PathOf(second) in d && d[PathOf(second)] == Directory) ==>
        Steps(d, Process(pid, run, Switch(second)), (d - {temp})[PathOf(second) := d[temp]],
              Process(pid, run, if second then Done else ClearTemp(true)))
  {
  }

  lemma TempDropped(d: Disk, e: Disk, pid: nat, run: RunId, second: bool)
    requires var temp := Temp(PathOf(second), pid); e == d || (temp in d && d[temp] != Directory && e == d - {temp})
    ensures Steps(d, Process(pid, run, DropTemp(second)), e, Process(pid, run, Refused))
  {
  }

  /** What one run keeps. */
  lemma {:induction false} RunKeeps(disks: seq<Disk>, procs: seq<Process>, m: nat)
    requires Solo(disks, procs) && m < |procs|
    ensures forall inode :: Named(disks[0], inode) ==> Named(disks[m], inode)
    ensures LegaciesKept(disks[0], disks[m])
  {
    if m > 0 {
      hide Steps, ProcessOk, Named, Mild;
      RunKeeps(disks, procs, m - 1);
      SoloInv(disks, procs, m - 1);
      var d, p, e, q := disks[m - 1], procs[m - 1], disks[m], procs[m];
      assert Steps(d, p, e, q);
      StepIsMild(d, p, e, q);
      MildKeepsLegacy(d, e, p);
      forall r ensures KeptAt(disks[0], e, LegacyLog(r)) {
        assert KeptAt(disks[0], d, LegacyLog(r));
      }
      forall inode | Named(disks[0], inode) ensures Named(e, inode) {
        StepKeepsNamed(d, p, e, q, inode);
      }
    }
  }

  /** A link made under a free name and moved to another one. */
  lemma SwitchedDisk(d: Disk, temp: Name, path: Name, x: Node)
    requires temp !in d && temp != path
    ensures var e := d[temp := x];
      && e - {temp} == d && (e - {temp})[path := e[temp]] == d[path := x] && d - {temp} == d
      && (path in e && e[path] == Directory <==> path in d && d[path] == Directory)
  {
    assert d - {temp} == d;
  }

  lemma OnlyTheTemp(d: Disk, e: Disk, temp: Name)
    requires e - {temp} == d - {temp}
    ensures OnlyChanges(d, e, {temp})
  {
    forall n | n != temp ensures Unchanged(d, e, n) {
      assert n in d - {temp} <==> n in d;
      assert n in e - {temp} <==> n in e;
    }
  }

  lemma LinkFrame(d: Disk, e: Disk, path: Name, pid: nat, target: Target, ok: bool)
    requires if ok then e == (d - {Temp(path, pid)})[path := Symlink(target)] else OnlyChanges(d, e, {Temp(path, pid)})
    ensures OnlyChanges(d, e, {path, Temp(path, pid)})
  {
  }

  lemma NotItsOwnTemp(path: Name, pid: nat)
    ensures Temp(path, pid) != path
  {
    assert Temp(path, pid).of < Temp(path, pid);
  }
}
