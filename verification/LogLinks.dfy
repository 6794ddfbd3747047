/** The log links of a boundary (go/cmd/evolve/cmd_boundary_log.go): a legacy log file is moved aside and
    replaced by a chain of symbolic links, by a sequence of file system calls that can stop anywhere. */
module LogLinks {
  import opened Base

  type RunId = string

  /** The names the protocol touches. `Temp(of, pid)` is the temporary link a process makes for `of`. */
  datatype Name =
    | LoopLog
    | Current
    | LegacyDir(run: RunId)
    | LegacyLog(run: RunId)
    | RunDir(run: RunId)
    | Temp(of: Name, pid: nat)

  /** Where a symbolic link points. */
  datatype Target = ToRun(run: RunId) | ToCurrentLog

  datatype Node = Regular(inode: nat) | Directory | Symlink(target: Target)

  type Disk = map<Name, Node>

  // ---------------------------------------------------------------- the file system calls

  predicate IsRegular(d: Disk, n: Name) { n in d && d[n].Regular? }

  /** mkdir -p succeeds on a directory that exists and fails on anything else. */
  predicate CanMkdir(d: Disk, n: Name) { n in d ==> d[n] == Directory }

  /** link(2) fails if the new name exists. */
  predicate CanLink(d: Disk, from: Name, to: Name) { from in d && to !in d && !d[from].Directory? }

  /** Two names of one regular file. */
  predicate SameFile(d: Disk, a: Name, b: Name) { IsRegular(d, a) && IsRegular(d, b) && d[a] == d[b] }

  /** Two names that can be one file: links are not told apart by inode here. */
  predicate MaybeSameFile(d: Disk, a: Name, b: Name) { a in d && b in d && d[a] == d[b] && !d[a].Directory? }

  predicate CanUnlink(d: Disk, n: Name) { n in d && !d[n].Directory? }

  /** rename(2) of a link replaces a file or a link, not a directory. */
  predicate CanRename(d: Disk, from: Name, to: Name) { from in d && (to in d ==> !d[to].Directory?) }

  function Renamed(d: Disk, from: Name, to: Name): Disk
    requires from in d
  {
    (d - {from})[to := d[from]]
  }

  // ---------------------------------------------------------------- the steps of one process

  /** Where a process stands. The two links are replaced one after the other; `second` tells which one. */
  datatype Step =
    | Inspect
    | AskLive
    | MakeLegacyDir
    | LinkLegacy
    | UnlinkLoopLog
    | MakeRunDir
    | ClearTemp(second: bool)
    | MakeTemp(second: bool)
    | Switch(second: bool)
    | DropTemp(second: bool)
    | Done
    | Refused

  datatype Process = Process(pid: nat, run: RunId, step: Step)

  function PathOf(second: bool): Name { if second then LoopLog else Current }

  function TargetOf(p: Process, second: bool): Target { if second then ToCurrentLog else ToRun(p.run) }

  predicate Goes(p: Process, q: Process, step: Step) { q == p.(step := step) }

  /** One call of a process. Every call may also fail without an effect, and then the process gives up. */
  predicate Steps(d: Disk, p: Process, e: Disk, q: Process) {
    match p.step
    case Inspect =>
      e == d && Goes(p, q, if IsRegular(d, LoopLog) then AskLive else MakeRunDir)
    case AskLive =>
      e == d && (Goes(p, q, MakeLegacyDir) || Goes(p, q, Refused))
    case MakeLegacyDir =>
      || (CanMkdir(d, LegacyDir(p.run)) && e == d[LegacyDir(p.run) := Directory] && Goes(p, q, LinkLegacy))
      || (e == d && Goes(p, q, Refused))
    case LinkLegacy =>
      || (CanLink(d, LoopLog, LegacyLog(p.run)) && e == d[LegacyLog(p.run) := d[LoopLog]] && Goes(p, q, UnlinkLoopLog))
      || (e == d && MaybeSameFile(d, LoopLog, LegacyLog(p.run)) && Goes(p, q, UnlinkLoopLog))
      || (e == d && !SameFile(d, LoopLog, LegacyLog(p.run)) && Goes(p, q, Refused))
    case UnlinkLoopLog =>
      || (CanUnlink(d, LoopLog) && e == d - {LoopLog} && Goes(p, q, MakeRunDir))
      || (e == d && Goes(p, q, Refused))
    case MakeRunDir =>
      || (CanMkdir(d, RunDir(p.run)) && e == d[RunDir(p.run) := Directory] && Goes(p, q, ClearTemp(false)))
      || (e == d && Goes(p, q, Refused))
    case ClearTemp(second) =>
      var temp := Temp(PathOf(second), p.pid);
      || (CanUnlink(d, temp) && e == d - {temp} && Goes(p, q, MakeTemp(second)))
      || (temp !in d && e == d && Goes(p, q, MakeTemp(second)))
      || (e == d && Goes(p, q, Refused))
    case MakeTemp(second) =>
      var temp := Temp(PathOf(second), p.pid);
      || (temp !in d && e == d[temp := Symlink(TargetOf(p, second))] && Goes(p, q, Switch(second)))
      || (e == d && Goes(p, q, Refused))
    case Switch(second) =>
      var temp := Temp(PathOf(second), p.pid);
      || (CanRename(d, temp, PathOf(second)) && e == Renamed(d, temp, PathOf(second))
          && Goes(p, q, if second then Done else ClearTemp(true)))
      || (e == d && Goes(p, q, DropTemp(second)))
    case DropTemp(second) =>
      var temp := Temp(PathOf(second), p.pid);
      || (CanUnlink(d, temp) && e == d - {temp} && Goes(p, q, Refused))
      || (e == d && Goes(p, q, Refused))
    case Done => false
    case Refused => false
  }

  // ---------------------------------------------------------------- any number of processes

  /** The disk and the live processes, by pid. */
  datatype State = State(disk: Disk, live: map<nat, Process>)

  /** A process starts: a first run, or a retry after a crash; its pid may be one that a crashed process had. */
  predicate Start(s: State, t: State, pid: nat, run: RunId) {
    pid !in s.live && t == s.(live := s.live[pid := Process(pid, run, Inspect)])
  }

  predicate Advance(s: State, t: State, pid: nat) {
    && pid in s.live && pid in t.live && t.live == s.live[pid := t.live[pid]]
    && Steps(s.disk, s.live[pid], t.disk, t.live[pid])
  }

  /** A process ends or crashes, between any two calls. */
  predicate Leave(s: State, t: State, pid: nat) { pid in s.live && t == s.(live := s.live - {pid}) }

  datatype Action = DoStart(pid: nat, run: RunId) | DoAdvance(pid: nat) | DoLeave(pid: nat)

  predicate Does(s: State, t: State, a: Action) {
    match a
    case DoStart(pid, run) => Start(s, t, pid, run)
    case DoAdvance(pid) => Advance(s, t, pid)
    case DoLeave(pid) => Leave(s, t, pid)
  }

  ghost predicate Next(s: State, t: State) { exists a :: Does(s, t, a) }

  /** Any disk to begin with. */
  predicate Init(s: State) { s.live == map[] }

  ghost predicate Execution(run: seq<State>) {
    run != [] && Init(run[0]) && forall k :: 0 <= k < |run| - 1 ==> Next(run[k], run[k + 1])
  }

  // ---------------------------------------------------------------- the invariant

  /** The process is past moving the legacy log. */
  predicate Moved(step: Step) {
    step.MakeRunDir? || step.ClearTemp? || step.MakeTemp? || step.Switch? || step.DropTemp? || step.Done?
  }

  predicate ProcessOk(d: Disk, p: Process) {
    && (p.step.UnlinkLoopLog? && IsRegular(d, LoopLog) ==> SameFile(d, LoopLog, LegacyLog(p.run)))
    && (Moved(p.step) ==> !IsRegular(d, LoopLog))
    && (p.step.Switch? ==>
          var temp := Temp(PathOf(p.step.second), p.pid);
          temp in d && d[temp] == Symlink(TargetOf(p, p.step.second)))
  }

  predicate Inv(s: State) {
    forall pid :: pid in s.live ==> s.live[pid].pid == pid && ProcessOk(s.disk, s.live[pid])
  }

  /** What one call can do to the names that matter. */
  ghost predicate Mild(d: Disk, e: Disk, p: Process) {
    && (IsRegular(e, LoopLog) ==> IsRegular(d, LoopLog) && e[LoopLog] == d[LoopLog])
    && (forall run :: LegacyLog(run) in d ==> LegacyLog(run) in e && e[LegacyLog(run)] == d[LegacyLog(run)])
    && (forall of, pid :: pid != p.pid && Temp(of, pid) in d ==> Temp(of, pid) in e && e[Temp(of, pid)] == d[Temp(of, pid)])
  }

  lemma StepIsMild(d: Disk, p: Process, e: Disk, q: Process)
    requires Steps(d, p, e, q) && ProcessOk(d, p)
    ensures Mild(d, e, p) && ProcessOk(e, q) && q.pid == p.pid && q.run == p.run
  {
  }

  lemma OthersKeep(d: Disk, e: Disk, p: Process, o: Process)
    requires Mild(d, e, p) && ProcessOk(d, o) && o.pid != p.pid
    ensures ProcessOk(e, o)
  {
  }

  lemma NextKeeps(s: State, t: State, a: Action)
    requires Inv(s) && Does(s, t, a)
    ensures Inv(t)
  {
    hide Steps, ProcessOk, Mild;
    match a
    case DoStart(pid, run) =>
      assert ProcessOk(t.disk, Process(pid, run, Inspect)) by { StartOk(t.disk, pid, run); }
    case DoAdvance(pid) =>
      StepIsMild(s.disk, s.live[pid], t.disk, t.live[pid]);
      forall o | o in t.live && o != pid
        ensures ProcessOk(t.disk, t.live[o])
      {
        OthersKeep(s.disk, t.disk, s.live[pid], s.live[o]);
      }
    case DoLeave(_) =>
  }

  lemma StartOk(d: Disk, pid: nat, run: RunId)
    ensures ProcessOk(d, Process(pid, run, Inspect))
  {
  }

  lemma {:induction false} ExecutionInv(run: seq<State>, k: nat)
    requires Execution(run) && k < |run|
    ensures Inv(run[k])
  {
    if k > 0 {
      ExecutionInv(run, k - 1);
      assert Next(run[k - 1], run[k]);
      var a :| Does(run[k - 1], run[k], a);
      NextKeeps(run[k - 1], run[k], a);
    }
  }

  // ---------------------------------------------------------------- what the protocol promises

  /** The inode has a name under which the log is looked for: the loop log, or a legacy log. */
  ghost predicate Named(d: Disk, inode: nat) {
    || (LoopLog in d && d[LoopLog] == Regular(inode))
    || exists run :: LegacyLog(run) in d && d[LegacyLog(run)] == Regular(inode)
  }

  lemma StepKeepsNamed(d: Disk, p: Process, e: Disk, q: Process, inode: nat)
    requires Steps(d, p, e, q) && ProcessOk(d, p) && Named(d, inode)
    ensures Named(e, inode)
  {
    StepIsMild(d, p, e, q);
    if LoopLog in d && d[LoopLog] == Regular(inode) {
      if p.step.UnlinkLoopLog? {
        assert LegacyLog(p.run) in d && d[LegacyLog(p.run)] == Regular(inode);
        assert LegacyLog(p.run) in e && e[LegacyLog(p.run)] == Regular(inode);
      }
    } else {
      var run :| LegacyLog(run) in d && d[LegacyLog(run)] == Regular(inode);
      assert LegacyLog(run) in e && e[LegacyLog(run)] == Regular(inode);
    }
  }

  /** Whatever processes run, crash and retry, in any interleaving: a legacy log that once was the loop log
      keeps a name, and a file at a legacy name is never removed or replaced. */
  lemma {:induction false} LegacyLogIsNeverLost(run: seq<State>, k: nat, m: nat, inode: nat)
    requires Execution(run) && k <= m < |run|
    ensures Named(run[k].disk, inode) ==> Named(run[m].disk, inode)
    ensures forall r :: LegacyLog(r) in run[k].disk ==>
      LegacyLog(r) in run[m].disk && run[m].disk[LegacyLog(r)] == run[k].disk[LegacyLog(r)]
    decreases m - k
  {
    if k < m {
      var s, t := run[k], run[k + 1];
      ExecutionInv(run, k);
      assert Next(s, t);
      var a :| Does(s, t, a);
      hide Steps, Mild, ProcessOk, Named;
      if a.DoAdvance? {
        var p, q := s.live[a.pid], t.live[a.pid];
        StepIsMild(s.disk, p, t.disk, q);
        assert Named(s.disk, inode) ==> Named(t.disk, inode) by {
          if Named(s.disk, inode) { StepKeepsNamed(s.disk, p, t.disk, q, inode); }
        }
        MildKeepsLegacy(s.disk, t.disk, p);
      }
      LegacyLogIsNeverLost(run, k + 1, m, inode);
    }
  }

  lemma MildKeepsLegacy(d: Disk, e: Disk, p: Process)
    requires Mild(d, e, p)
    ensures forall r :: LegacyLog(r) in d ==> LegacyLog(r) in e && e[LegacyLog(r)] == d[LegacyLog(r)]
  {
  }

  /** At every call a process leaves the two links at what they were or at what it makes them; the only other
      thing it does to either is to remove a loop log that has its legacy name. */
  lemma LinksAreOldOrNew(d: Disk, p: Process, e: Disk, q: Process)
    requires Steps(d, p, e, q) && ProcessOk(d, p)
    ensures Current in e <==> Current in d || (p.step == Switch(false) && q.step == ClearTemp(true))
    ensures Current in e && !(Current in d && e[Current] == d[Current]) ==> e[Current] == Symlink(ToRun(p.run))
    ensures !p.step.UnlinkLoopLog? && LoopLog in d ==> LoopLog in e
    ensures LoopLog in e && !(LoopLog in d && e[LoopLog] == d[LoopLog]) ==> e[LoopLog] == Symlink(ToCurrentLog)
    ensures p.step.UnlinkLoopLog? && IsRegular(d, LoopLog) && LoopLog !in e ==>
      LegacyLog(p.run) in e && e[LegacyLog(p.run)] == d[LoopLog]
  {
  }

  /** A run of one process, with no other one live. */
  ghost predicate Solo(disks: seq<Disk>, procs: seq<Process>) {
    && |disks| == |procs| > 0 && procs[0].step == Inspect
    && forall k :: 0 <= k < |procs| - 1 ==> Steps(disks[k], procs[k], disks[k + 1], procs[k + 1])
  }

  predicate SecondLink(step: Step) {
    step in {ClearTemp(true), MakeTemp(true), Switch(true), Done}
  }

  predicate LinkedCurrent(d: Disk, p: Process) {
    SecondLink(p.step) ==> Current in d && d[Current] == Symlink(ToRun(p.run))
  }

  /** From inspection to the end: where the inode of a legacy log is. */
  predicate Carried(d: Disk, p: Process, first: Disk) {
    IsRegular(first, LoopLog) ==>
      && (p.step in {Inspect, AskLive, MakeLegacyDir, LinkLegacy} ==> IsRegular(d, LoopLog) && d[LoopLog] == first[LoopLog])
      && (p.step == UnlinkLoopLog || Moved(p.step) ==> LegacyLog(p.run) in d && d[LegacyLog(p.run)] == first[LoopLog])
  }

  lemma SoloStep(d: Disk, p: Process, e: Disk, q: Process, first: Disk)
    requires Steps(d, p, e, q) && ProcessOk(d, p) && LinkedCurrent(d, p) && Carried(d, p, first)
    ensures LinkedCurrent(e, q) && Carried(e, q, first)
  {
  }

  lemma {:induction false} SoloInv(disks: seq<Disk>, procs: seq<Process>, k: nat)
    requires Solo(disks, procs) && k < |procs|
    ensures ProcessOk(disks[k], procs[k]) && LinkedCurrent(disks[k], procs[k]) && Carried(disks[k], procs[k], disks[0])
    ensures procs[k].run == procs[0].run
  {
    if k > 0 {
      SoloInv(disks, procs, k - 1);
      hide ProcessOk, LinkedCurrent, Carried, Mild;
      assert Steps(disks[k - 1], procs[k - 1], disks[k], procs[k]);
      hide Steps;
      StepIsMild(disks[k - 1], procs[k - 1], disks[k], procs[k]);
      SoloStep(disks[k - 1], procs[k - 1], disks[k], procs[k], disks[0]);
    }
  }

  lemma DoneLinks(d: Disk, p: Process, e: Disk, q: Process)
    requires Steps(d, p, e, q) && ProcessOk(d, p) && q.step.Done?
    ensures LoopLog in e && e[LoopLog] == Symlink(ToCurrentLog)
  {
  }

  /** A run that completes leaves the loop log pointing through the current link at its own run directory, and
      a legacy log under the legacy name of the run. */
  lemma CompleteRun(disks: seq<Disk>, procs: seq<Process>)
    requires Solo(disks, procs) && procs[|procs| - 1].step.Done?
    ensures var d, run := disks[|disks| - 1], procs[0].run;
      && Current in d && d[Current] == Symlink(ToRun(run))
      && LoopLog in d && d[LoopLog] == Symlink(ToCurrentLog)
      && (IsRegular(disks[0], LoopLog) ==> LegacyLog(run) in d && d[LegacyLog(run)] == disks[0][LoopLog])
  {
    var n := |procs| - 1;
    SoloInv(disks, procs, n);
    SoloInv(disks, procs, n - 1);
    DoneLinks(disks[n - 1], procs[n - 1], disks[n], procs[n]);
  }
}
