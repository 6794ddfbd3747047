/** When the detached child reads its arguments as its parent read its own. */
module DetachArgsProofs {
  import opened Base
  import opened DetachArgs
  import opened FlagTokens

  predicate KnowsLaunchFlags(fs: FlagSet) {
    && "detach" in fs.kinds && fs.kinds["detach"].Switch?
    && "json" in fs.kinds && fs.kinds["json"].Switch?
    && "log" in fs.kinds && fs.kinds["log"].Valued?
  }

  /** No token that is the value of another flag looks like detach, json or log itself. */
  predicate NoneHidden(args: seq<Token>, fs: FlagSet)
    decreases |args|
  {
    match ReadFlag(args, fs)
    case None => true
    case Some((set_, n)) =>
      && (n == 2 && !Launches(set_.name) ==> !Launches(FlagTokenName(args[1]).0))
      && NoneHidden(args[n..], fs)
  }

  function Kept(assigns: seq<Assign>): seq<Assign> {
    if assigns == [] then []
    else if Launches(assigns[0].name) then Kept(assigns[1..])
    else [assigns[0]] + Kept(assigns[1..])
  }

  /** What the child should read: the same settings in the same order, without detach, json and log, and the
      same positional arguments. */
  function Expected(p: Parsed): Parsed { Parsed(Kept(p.assigns), p.rest) }

  function Child(args: seq<Token>, p: Parsed): seq<Token>
    requires |p.rest| <= |args|
  {
    ChildArgs(args, |args| - |p.rest|)
  }

  lemma HeadName(s: Token)
    ensures match HeadOf(s)
      case Flag(name, value) => FlagTokenName(s) == (name, value.Some?)
      case Malformed => true
      case _ => s == [] || FlagTokenName(s).0 == ""
  {
    if |s| >= 2 && s[0] == '-' {
      assert s[1..][0] == s[1] && s[1..][1..] == s[2..];
      if s == "--" { }
    }
  }

  /** One parser step, taken apart. */
  lemma ParseStep(args: seq<Token>, fs: FlagSet, p: Parsed) returns (n: nat, more: Parsed)
    requires ParseFlags(args, fs) == Some(p) && args != [] && HeadOf(args[0]).Flag?
    ensures ReadFlag(args, fs).Some? && n == ReadFlag(args, fs).value.1 && n <= |args|
    ensures ParseFlags(args[n..], fs) == Some(more) && p == Parsed([ReadFlag(args, fs).value.0] + more.assigns, more.rest)
    ensures fs.accepts(ReadFlag(args, fs).value.0.name, ReadFlag(args, fs).value.0.value)
    ensures |p.rest| <= |args| - n
  {
    n := ReadFlag(args, fs).value.1;
    more := ParseFlags(args[n..], fs).value;
  }

  /** A kept flag stays in front of the child's arguments. */
  lemma KeptInFront(args: seq<Token>, k: nat, n: int)
    requires 1 <= k <= n && k <= |args| && k <= 2
    requires forall j :: 0 <= j < k ==> !Launches(FlagTokenName(args[j]).0)
    ensures ChildArgs(args, n) == args[..k] + ChildArgs(args[k..], n - k)
  {
    hide FlagTokenName;
    var one := args[1..];
    assert !Launches(FlagTokenName(args[0]).0);
    assert ChildArgs(args, n) == [args[0]] + ChildArgs(one, n - 1);
    if k == 2 {
      assert one[0] == args[1] && one[1..] == args[2..];
      assert ChildArgs(one, n - 1) == [args[1]] + ChildArgs(args[2..], n - 2);
      assert args[..2] == [args[0]] + [args[1]];
      var more := ChildArgs(args[2..], n - 2);
      assert [args[0]] + ([args[1]] + more) == args[..2] + more;
    } else {
      assert args[..1] == [args[0]];
    }
  }

  /** Reading a flag does not look behind the tokens it takes. */
  lemma ReadInFront(args: seq<Token>, fs: FlagSet, tail: seq<Token>)
    requires ReadFlag(args, fs).Some?
    ensures var n := ReadFlag(args, fs).value.1;
      ReadFlag(args[..n] + tail, fs) == ReadFlag(args, fs)
  {
    hide HeadOf;
    var n := ReadFlag(args, fs).value.1;
    assert (args[..n] + tail)[0] == args[0];
  }

  lemma ParseInFront(args: seq<Token>, fs: FlagSet, tail: seq<Token>)
    requires ReadFlag(args, fs).Some? && args != [] && HeadOf(args[0]).Flag?
    requires fs.accepts(ReadFlag(args, fs).value.0.name, ReadFlag(args, fs).value.0.value)
    ensures var (set_, n) := ReadFlag(args, fs).value;
      ParseFlags(args[..n] + tail, fs) == match ParseFlags(tail, fs)
        case None => None
        case Some(more) => Some(Parsed([set_] + more.assigns, more.rest))
  {
    ReadInFront(args, fs, tail);
    hide ReadFlag, HeadOf;
    var n := ReadFlag(args, fs).value.1;
    var all := args[..n] + tail;
    assert all[0] == args[0] && all[n..] == tail;
  }

  /** A dropped flag takes its value with it. */
  lemma DroppedInFront(args: seq<Token>, fs: FlagSet, n: int)
    requires KnowsLaunchFlags(fs) && ReadFlag(args, fs).Some? && Launches(ReadFlag(args, fs).value.0.name)
    requires n >= ReadFlag(args, fs).value.1
    ensures var k := ReadFlag(args, fs).value.1;
      ChildArgs(args, n) == ChildArgs(args[k..], n - k)
  {
    HeadName(args[0]);
    hide HeadOf, FlagTokenName;
  }

  lemma {:induction false} ChildParses(args: seq<Token>, fs: FlagSet, p: Parsed)
    requires KnowsLaunchFlags(fs) && ParseFlags(args, fs) == Some(p) && NoneHidden(args, fs)
    ensures ParseFlags(Child(args, p), fs) == Some(Expected(p))
    decreases |args|
  {
    hide HeadOf, FlagTokenName, ChildArgs, ParseFlags;
    var n := |args| - |p.rest|;
    if args == [] || !HeadOf(args[0]).Flag? {
      StopsAlike(args, fs, p);
    } else {
      var k, more := ParseStep(args, fs, p);
      var set_ := ReadFlag(args, fs).value.0;
      ChildParses(args[k..], fs, more);
      var child := Child(args[k..], more);
      assert p.assigns[0] == set_ && p.assigns[1..] == more.assigns;
      if Launches(set_.name) {
        DroppedInFront(args, fs, n);
      } else {
        HeadName(args[0]);
        assert forall j :: 0 <= j < k ==> !Launches(FlagTokenName(args[j]).0);
        KeptInFront(args, k, n);
        ParseInFront(args, fs, child);
      }
    }
  }

  /** Where the flags end, nothing is rewritten. */
  lemma StopsAlike(args: seq<Token>, fs: FlagSet, p: Parsed)
    requires ParseFlags(args, fs) == Some(p) && (args == [] || !HeadOf(args[0]).Flag?)
    ensures Child(args, p) == args && Expected(p) == p
  {
    if args != [] && HeadOf(args[0]).Terminator? {
      HeadName(args[0]);
      assert ChildArgs(args[1..], 0) == args[1..];
      assert [args[0]] + args[1..] == args;
    }
  }

  /** A token that looks like a dropped flag is never the first survivor of the rewriting, unless it stands
      behind the end of the flags. */
  lemma {:induction false} FirstSurvivor(args: seq<Token>, n: int, v: Token)
    requires Launches(FlagTokenName(v).0)
    ensures var x := ChildArgs(args, n);
      x != [] && x[0] == v ==> |x| <= |args| - n
    decreases |args|
  {
    hide FlagTokenName;
    if args != [] && n > 0 {
      var (name, hasValue) := FlagTokenName(args[0]);
      if Launches(name) {
        var k := if name == "log" && !hasValue && |args| > 1 then 2 else 1;
        FirstSurvivor(args[k..], n - k, v);
      }
    }
  }

  lemma {:induction false} ChildDiffers(args: seq<Token>, fs: FlagSet, p: Parsed)
    requires KnowsLaunchFlags(fs) && ParseFlags(args, fs) == Some(p) && !NoneHidden(args, fs)
    ensures ParseFlags(Child(args, p), fs) != Some(Expected(p))
    decreases |args|
  {
    hide HeadOf, FlagTokenName, ChildArgs, ParseFlags, ReadFlag, NoneHidden, Kept;
    HiddenAt(args, fs);
    TwoTokens(args, fs);
    HeadName(args[0]);
    var k, more := ParseStep(args, fs, p);
    var name := ReadFlag(args, fs).value.0.name;
    if k == 2 && !Launches(name) && Launches(FlagTokenName(args[1]).0) {
      ValuedFlag(args, fs);
      assert [args[0]] + args[1..] == args;
      KeptStep(p.assigns, more.assigns);
      HiddenValueIsLost(args[0], args[1..], fs, name, Expected(p), |args| - |p.rest|);
    } else {
      ChildDiffers(args[k..], fs, more);
      if Launches(name) {
        DroppedInFront(args, fs, |args| - |p.rest|);
        assert Expected(p) == Expected(more) by { KeptStep(p.assigns, more.assigns); }
      } else {
        KeptDiffers(args, fs, p, more);
      }
    }
  }

  lemma HiddenAt(args: seq<Token>, fs: FlagSet)
    requires !NoneHidden(args, fs)
    ensures ReadFlag(args, fs).Some?
    ensures var (set_, k) := ReadFlag(args, fs).value;
      !(k == 2 && !Launches(set_.name) && Launches(FlagTokenName(args[1]).0)) ==> !NoneHidden(args[k..], fs)
  {
    hide HeadOf, FlagTokenName, ReadFlag;
  }

  lemma TwoTokens(args: seq<Token>, fs: FlagSet)
    requires ReadFlag(args, fs).Some?
    ensures var (set_, k) := ReadFlag(args, fs).value;
      && HeadOf(args[0]).Flag? && set_.name == HeadOf(args[0]).name && k <= 2
      && (k == 2 ==> |args| >= 2 && set_.value == args[1] && HeadOf(args[0]).value == None)
  {
  }

  lemma KeptStep(assigns: seq<Assign>, more: seq<Assign>)
    requires assigns != [] && assigns == [assigns[0]] + more
    ensures Kept(assigns) == if Launches(assigns[0].name) then Kept(more) else [assigns[0]] + Kept(more)
  {
    assert assigns[1..] == more;
  }

  lemma KeptDiffers(args: seq<Token>, fs: FlagSet, p: Parsed, more: Parsed)
    requires ReadFlag(args, fs).Some? && ParseFlags(args, fs) == Some(p) && HeadOf(args[0]).Flag?
    requires var (set_, k) := ReadFlag(args, fs).value;
      && p == Parsed([set_] + more.assigns, more.rest) && |p.rest| <= |args| - k && k <= 2
      && fs.accepts(set_.name, set_.value)
      && !Launches(set_.name) && (forall j :: 0 <= j < k ==> !Launches(FlagTokenName(args[j]).0))
      && ParseFlags(Child(args[k..], more), fs) != Some(Expected(more))
    ensures ParseFlags(Child(args, p), fs) != Some(Expected(p))
  {
    hide HeadOf, FlagTokenName, ChildArgs, ParseFlags, ReadFlag, Kept;
    var (set_, k) := ReadFlag(args, fs).value;
    KeptInFront(args, k, |args| - |p.rest|);
    ParseInFront(args, fs, Child(args[k..], more));
    KeptStep(p.assigns, more.assigns);
    var child := ParseFlags(Child(args[k..], more), fs);
    if child.Some? {
      PrependDiffers(set_, child.value, Expected(more));
    }
  }

  lemma PrependDiffers(a: Assign, x: Parsed, y: Parsed)
    requires x != y
    ensures Parsed([a] + x.assigns, x.rest) != Parsed([a] + y.assigns, y.rest)
  {
    if x.assigns != y.assigns {
      assert ([a] + x.assigns)[1..] == x.assigns && ([a] + y.assigns)[1..] == y.assigns;
    }
  }

  lemma HiddenValueIsLost(flag: Token, later: seq<Token>, fs: FlagSet, name: string, p: Parsed, n: int)
    requires HeadOf(flag) == Flag(name, None) && name in fs.kinds && fs.kinds[name].Valued?
    requires !Launches(FlagTokenName(flag).0) && later != [] && Launches(FlagTokenName(later[0]).0)
    requires n > 1 && n == 1 + |later| - |p.rest| && p.assigns != [] && p.assigns[0] == Assign(name, later[0])
    ensures ParseFlags(ChildArgs([flag] + later, n), fs) != Some(p)
  {
    hide HeadOf, FlagTokenName, ReadFlag, ParseFlags, ChildArgs, Launches;
    var args := [flag] + later;
    assert args[0] == flag && args[1..] == later;
    var x := ChildArgs(later, n - 1);
    KeptFirst(args, n);
    FirstSurvivor(later, n - 1, later[0]);
    FlagThen(flag, x, fs, name);
    NotExpected(ParseFlags([flag] + x, fs), x, p, name, later[0]);
  }

  lemma NotExpected(o: Option<Parsed>, x: seq<Token>, e: Parsed, name: string, v: string)
    requires o.Some? ==> x != [] && |o.value.rest| < |x| && o.value.assigns != [] && o.value.assigns[0] == Assign(name, x[0])
    requires e.assigns != [] && e.assigns[0] == Assign(name, v)
    requires x != [] && x[0] == v ==> |x| <= |e.rest|
    ensures o != Some(e)
  {
  }

  lemma ValuedFlag(args: seq<Token>, fs: FlagSet)
    requires ReadFlag(args, fs).Some? && ReadFlag(args, fs).value.1 == 2
    ensures HeadOf(args[0]).Flag? && HeadOf(args[0]).name in fs.kinds && fs.kinds[HeadOf(args[0]).name].Valued?
  {
    hide HeadOf;
  }

  lemma KeptFirst(args: seq<Token>, n: int)
    requires args != [] && n > 0 && !Launches(FlagTokenName(args[0]).0)
    ensures ChildArgs(args, n) == [args[0]] + ChildArgs(args[1..], n - 1)
  {
    hide FlagTokenName;
  }

  /** A flag that wants a value takes the next token for it. */
  lemma FlagThen(flag: Token, x: seq<Token>, fs: FlagSet, name: string)
    requires HeadOf(flag) == Flag(name, None) && name in fs.kinds && fs.kinds[name].Valued?
    ensures var o := ParseFlags([flag] + x, fs);
      o.Some? ==> x != [] && |o.value.rest| < |x| && o.value.assigns != [] && o.value.assigns[0] == Assign(name, x[0])
  {
    hide HeadOf, ParseFlags;
    var child := [flag] + x;
    FlagReads(flag, x, fs, name);
    hide ReadFlag;
    assert child[0] == flag;
    if x == [] {
      NoFlag(child, fs);
    } else {
      ParseTwo(child, fs, Assign(name, x[0]));
    }
  }

  lemma FlagReads(flag: Token, x: seq<Token>, fs: FlagSet, name: string)
    requires HeadOf(flag) == Flag(name, None) && name in fs.kinds && fs.kinds[name].Valued?
    ensures ReadFlag([flag] + x, fs) == if x == [] then None else Some((Assign(name, x[0]), 2))
  {
    hide HeadOf;
    var child := [flag] + x;
    assert child[0] == flag && (x != [] ==> child[1] == x[0]);
  }

  lemma ParseTwo(args: seq<Token>, fs: FlagSet, a: Assign)
    requires args != [] && HeadOf(args[0]).Flag? && ReadFlag(args, fs) == Some((a, 2))
    ensures var o := ParseFlags(args, fs);
      o.Some? ==> |o.value.rest| <= |args| - 2 && o.value.assigns != [] && o.value.assigns[0] == a
  {
    hide HeadOf, ReadFlag;
  }

  /** For every argument list the parser accepts: the child reads the same settings in the same order, and the
      same positional arguments, exactly when no value hides a launch flag. */
  lemma ChildReadsTheSame(args: seq<Token>, fs: FlagSet, p: Parsed)
    requires KnowsLaunchFlags(fs) && ParseFlags(args, fs) == Some(p)
    ensures ParseFlags(Child(args, p), fs) == Some(Expected(p)) <==> NoneHidden(args, fs)
  {
    if NoneHidden(args, fs) {
      ChildParses(args, fs, p);
    } else {
      ChildDiffers(args, fs, p);
    }
  }

  // ---------------------------------------------------------------- the values of the flags

  /** The value each flag ends up with: the last one it was set to. */
  function Values(assigns: seq<Assign>): map<string, string> {
    if assigns == [] then map[]
    else Values(assigns[..|assigns| - 1])[assigns[|assigns| - 1].name := assigns[|assigns| - 1].value]
  }

  lemma {:induction false} KeptAppend(a: seq<Assign>, b: seq<Assign>)
    ensures Kept(a + b) == Kept(a) + Kept(b)
  {
    if a == [] {
      assert a + b == b;
    } else {
      assert (a + b)[1..] == a[1..] + b;
      KeptAppend(a[1..], b);
    }
  }

  lemma KeptSnoc(front: seq<Assign>, last: Assign)
    ensures Kept(front + [last]) == if Launches(last.name) then Kept(front) else Kept(front) + [last]
  {
    KeptAppend(front, [last]);
    assert [last][1..] == [];
    assert Kept(front) + [] == Kept(front);
  }

  lemma MinusLater(m: map<string, string>, name: string, value: string, gone: set<string>)
    ensures m[name := value] - gone == if name in gone then m - gone else (m - gone)[name := value]
  {
  }

  lemma ValuesSnoc(front: seq<Assign>, last: Assign)
    ensures Values(front + [last]) == Values(front)[last.name := last.value]
  {
    assert (front + [last])[..|front|] == front;
  }

  lemma {:induction false} KeptValues(assigns: seq<Assign>)
    ensures Values(Kept(assigns)) == Values(assigns) - {"detach", "json", "log"}
  {
    if assigns != [] {
      hide Kept, Values, Launches;
      var front, last := assigns[..|assigns| - 1], assigns[|assigns| - 1];
      assert assigns == front + [last];
      KeptValues(front);
      KeptSnoc(front, last);
      ValuesSnoc(front, last);
      ValuesSnoc(Kept(front), last);
      LaunchNames(last.name);
      MinusLater(Values(front), last.name, last.value, {"detach", "json", "log"});
    }
  }

  lemma LaunchNames(name: string)
    ensures Launches(name) <==> name in {"detach", "json", "log"}
  {
  }

  /** The detached child ends up with the values and the positional arguments of its parent, a relaunch, and
      detach, json and log unset. */
  lemma DetachedChild(args: seq<Token>, fs: FlagSet, p: Parsed)
    requires KnowsLaunchFlags(fs) && ParseFlags(args, fs) == Some(p) && NoneHidden(args, fs)
    requires "relaunch" in fs.kinds && fs.kinds["relaunch"].Switch? && fs.accepts("relaunch", "true")
    ensures var child := ParseFlags(DetachArgv(args, |args| - |p.rest|), fs);
      && child.Some? && child.value.rest == p.rest
      && var values := Values(p.assigns) - {"detach", "json", "log"};
         Values(child.value.assigns) == if "relaunch" in values then values else values["relaunch" := "true"]
  {
    hide ReadFlag, HeadOf, ChildArgs, NoneHidden, Kept, Values, ParseFlags;
    ChildParses(args, fs, p);
    KeptValues(p.assigns);
    RelaunchInFront(Child(args, p), fs, Expected(p));
    SetFirst(Assign("relaunch", "true"), Kept(p.assigns));
  }

  lemma RelaunchInFront(child: seq<Token>, fs: FlagSet, p: Parsed)
    requires "relaunch" in fs.kinds && fs.kinds["relaunch"].Switch? && fs.accepts("relaunch", "true")
    requires ParseFlags(child, fs) == Some(p)
    ensures ParseFlags(["--relaunch"] + child, fs) == Some(Parsed([Assign("relaunch", "true")] + p.assigns, p.rest))
  {
    hide ReadFlag, HeadOf;
    var argv := ["--relaunch"] + child;
    RelaunchRead(child, fs);
    assert argv[0] == "--relaunch" && argv[1..] == child;
  }

  lemma RelaunchRead(more: seq<Token>, fs: FlagSet)
    requires "relaunch" in fs.kinds && fs.kinds["relaunch"].Switch?
    ensures HeadOf("--relaunch").Flag?
    ensures ReadFlag(["--relaunch"] + more, fs) == Some((Assign("relaunch", "true"), 1))
  {
    hide HeadOf;
    RelaunchHead();
    assert (["--relaunch"] + more)[0] == "--relaunch";
  }

  lemma RelaunchHead()
    ensures HeadOf("--relaunch") == Flag("relaunch", None)
  {
    var body: string := "relaunch";
    assert "--relaunch"[2..] == body;
    NoEquals(body);
    assert body[..|body|] == body;
  }

  lemma {:induction false} SetFirst(a: Assign, more: seq<Assign>)
    ensures Values([a] + more) == if a.name in Values(more) then Values(more) else Values(more)[a.name := a.value]
  {
    var all := [a] + more;
    if more == [] {
      assert all[..0] == [];
    } else {
      assert all[..|all| - 1] == [a] + more[..|more| - 1];
      SetFirst(a, more[..|more| - 1]);
    }
  }

  /** The flags of the loop are such a flag set. */
  lemma LoopFlagsKnowLaunchFlags(accepts: (string, string) -> bool)
    ensures KnowsLaunchFlags(FlagSet(LOOP_FLAGS, accepts))
    ensures "relaunch" in LOOP_FLAGS && LOOP_FLAGS["relaunch"].Switch?
  {
  }

  /** A goal text that looks like a launch flag: the parent reads it as the goal, the child's arguments lack it and
      do not parse. */
  lemma GoalTextIsLost(accepts: (string, string) -> bool)
    requires accepts("goal-text", "--json")
    ensures var fs, args := FlagSet(LOOP_FLAGS, accepts), ["--goal-text", "--json"];
      var p := Parsed([Assign("goal-text", "--json")], []);
      ParseFlags(args, fs) == Some(p) && Child(args, p) == ["--goal-text"] && ParseFlags(["--goal-text"], fs) == None
  {
    hide HeadOf, FlagTokenName, ParseFlags, ChildArgs;
    PlainFlag("goal-text");
    PlainFlag("json");
    assert "--goal-text" == "--" + "goal-text" && "--json" == "--" + "json";
    ValueIsLost("--goal-text", "--json", "goal-text", FlagSet(LOOP_FLAGS, accepts));
  }

  lemma ValueIsLost(flag: Token, value: Token, name: string, fs: FlagSet)
    requires HeadOf(flag) == Flag(name, None) && FlagTokenName(flag).0 == name && !Launches(name)
    requires name in fs.kinds && fs.kinds[name].Valued? && fs.accepts(name, value)
    requires FlagTokenName(value).0 == "json"
    ensures var args, p := [flag, value], Parsed([Assign(name, value)], []);
      ParseFlags(args, fs) == Some(p) && Child(args, p) == [flag] && ParseFlags([flag], fs) == None
  {
    hide HeadOf, FlagTokenName, ParseFlags, ChildArgs;
    var args := [flag, value];
    assert ReadFlag(args, fs) == Some((Assign(name, value), 2));
    assert ReadFlag([flag], fs) == None;
    hide ReadFlag;
    assert args[2..] == [];
    LastFlag(args, fs, Assign(name, value), 2);
    NoFlag([flag], fs);
    JsonDropped(flag, value);
  }

  lemma LastFlag(args: seq<Token>, fs: FlagSet, a: Assign, n: nat)
    requires args != [] && HeadOf(args[0]).Flag? && ReadFlag(args, fs) == Some((a, n)) && fs.accepts(a.name, a.value) && args[n..] == []
    ensures ParseFlags(args, fs) == Some(Parsed([a], []))
  {
    hide HeadOf, ReadFlag;
    NoTokens(fs);
    var more := ParseFlags(args[n..], fs).value;
    assert ParseFlags(args, fs) == Some(Parsed([a] + more.assigns, more.rest));
    hide ParseFlags;
    assert [a] + more.assigns == [a];
  }

  lemma NoTokens(fs: FlagSet)
    ensures ParseFlags([], fs) == Some(Parsed([], []))
  {
  }

  lemma NoFlag(args: seq<Token>, fs: FlagSet)
    requires args != [] && HeadOf(args[0]).Flag? && ReadFlag(args, fs) == None
    ensures ParseFlags(args, fs) == None
  {
    hide HeadOf, ReadFlag;
  }

  lemma JsonDropped(flag: Token, value: Token)
    requires !Launches(FlagTokenName(flag).0) && FlagTokenName(value).0 == "json"
    ensures ChildArgs([flag, value], 2) == [flag]
  {
    hide FlagTokenName;
    assert [flag, value][1..] == [value] && [value][1..] == [];
    assert ChildArgs([], 0) == [];
    assert ChildArgs([value], 1) == [];
  }

  lemma PlainFlag(name: string)
    requires name != [] && name[0] != '-' && forall i :: 0 <= i < |name| ==> name[i] != '='
    ensures HeadOf("--" + name) == Flag(name, None) && FlagTokenName("--" + name) == (name, false)
  {
    var s := "--" + name;
    NoEquals(name);
    assert s[2..] == name && s[1..][0] == '-' && s[1..][1..] == name && name[..|name|] == name;
    assert s != "--";
  }
}
