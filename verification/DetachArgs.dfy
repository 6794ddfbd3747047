/** Rewriting the arguments of `evolve loop` for its detached child (go/cmd/evolve/cmd_loop_args.go), against a
    model of the flag parser of Go's standard library. */
module DetachArgs {
  import opened Base

  type Token = string

  /** A boolean flag never takes the next token as its value; any other flag without `=` does. */
  datatype Kind = Switch | Valued

  /** The registered flags, and which values they accept. */
  datatype FlagSet = FlagSet(kinds: map<string, Kind>, accepts: (string, string) -> bool)

  datatype Assign = Assign(name: string, value: string)

  /** The flags as they were set, in order, and the positional arguments. */
  datatype Parsed = Parsed(assigns: seq<Assign>, rest: seq<Token>)

  /** The flags of `evolve loop` with their kinds. */
  const LOOP_FLAGS: map<string, Kind> := map[
    "project-root" := Valued, "evolve-dir" := Valued, "goal-hash" := Valued, "goal-text" := Valued,
    "goal-file" := Valued, "goal-from-last" := Switch, "strategy" := Valued, "max-cycles" := Valued,
    "cycles" := Valued, "resume" := Switch, "auto-resume" := Switch, "dry-run" := Switch, "reset" := Switch,
    "fingerprint" := Valued, "consensus-audit" := Switch, "force-fresh" := Switch, "skip-preflight" := Switch,
    "skip-preflight-boot" := Switch, "until-inbox-empty" := Switch, "preflight-only" := Switch,
    "detach" := Switch, "relaunch" := Switch, "log" := Valued, "bypass-policy" := Switch, "json" := Switch,
    "sandbox-off" := Valued, "cli" := Valued, "model" := Valued]

  /** The index of the first `=`, or the length. */
  function EqualsIndex(s: string): (i: nat)
    ensures i <= |s|
  {
    if s == [] || s[0] == '=' then 0 else 1 + EqualsIndex(s[1..])
  }

  /** Splits at the first `=`: what is in front of it, and what is behind it if there is one. */
  function CutEquals(s: string): (string, Option<string>) {
    var i := EqualsIndex(s);
    (s[..i], if i < |s| then Some(s[i + 1..]) else None)
  }

  // ---------------------------------------------------------------- the parser

  datatype Head =
    | Stop
    | Terminator
    | Malformed
    | Flag(name: string, value: Option<string>)

  /** What the parser makes of the next token. */
  function HeadOf(s: Token): Head {
    if |s| < 2 || s[0] != '-' then Stop
    else if s == "--" then Terminator
    else
      var body := if s[1] == '-' then s[2..] else s[1..];
      if body == [] || body[0] == '-' || body[0] == '=' then Malformed
      else var (name, value) := CutEquals(body); Flag(name, value)
  }

  /** How many tokens the flag at the front takes, and what it sets. */
  function ReadFlag(args: seq<Token>, fs: FlagSet): (o: Option<(Assign, nat)>)
    ensures o.Some? ==> 1 <= o.value.1 <= |args|
  {
    if args == [] || !HeadOf(args[0]).Flag? then None
    else
      var Flag(name, value) := HeadOf(args[0]);
      if name !in fs.kinds then None
      else if value.Some? then Some((Assign(name, value.value), 1))
      else if fs.kinds[name].Switch? then Some((Assign(name, "true"), 1))
      else if |args| >= 2 then Some((Assign(name, args[1]), 2))
      else None
  }

  function ParseFlags(args: seq<Token>, fs: FlagSet): (o: Option<Parsed>)
    ensures o.Some? ==> |o.value.rest| <= |args| && o.value.rest == args[|args| - |o.value.rest|..]
    decreases |args|
  {
    if args == [] || HeadOf(args[0]).Stop? then Some(Parsed([], args))
    else if HeadOf(args[0]).Terminator? then Some(Parsed([], args[1..]))
    else
      match ReadFlag(args, fs)
      case None => None
      case Some((set_, n)) =>
        if !fs.accepts(set_.name, set_.value) then None
        else
          match ParseFlags(args[n..], fs)
          case None => None
          case Some(more) => Some(Parsed([set_] + more.assigns, more.rest))
  }

  // ---------------------------------------------------------------- the rewriting

  /** The name a token has if it is read as a flag, and whether it carries a value. */
  function FlagTokenName(token: Token): (string, bool) {
    if token == "--" || token == [] || token[0] != '-' then ("", false)
    else
      var once := token[1..];
      var body := if once != [] && once[0] == '-' then once[1..] else once;
      var (name, value) := CutEquals(body);
      (name, value.Some?)
  }

  predicate Launches(name: string) { name == "detach" || name == "json" || name == "log" }

  /** What the loop of detachChildArgs leaves of `args` when `n` more tokens belong to the flags. */
  function ChildArgs(args: seq<Token>, n: int): seq<Token>
    decreases |args|
  {
    if args == [] then []
    else if n <= 0 then args
    else
      var (name, hasValue) := FlagTokenName(args[0]);
      if name == "detach" || name == "json" then ChildArgs(args[1..], n - 1)
      else if name == "log" then
        var skip := if hasValue || |args| == 1 then 1 else 2;
        ChildArgs(args[skip..], n - skip)
      else [args[0]] + ChildArgs(args[1..], n - 1)
  }

  method DetachChildArgs(args: seq<Token>, flagEnd: int) returns (out: seq<Token>)
    ensures out == ChildArgs(args, flagEnd)
  {
    hide FlagTokenName, ChildArgs;
    out := [];
    var i := 0;
    assert args[0..] == args;
    while i < |args|
      invariant 0 <= i
      invariant ChildArgs(args, flagEnd) == out + ChildArgs(From(args, i), flagEnd - i)
      decreases |args| - i
    {
      ChildStep(args, i, flagEnd, out);
      if i >= flagEnd {
        out := out + [args[i]];
      } else {
        var (name, hasValue) := FlagTokenName(args[i]);
        if name == "detach" || name == "json" {
        } else if name == "log" {
          if !hasValue { i := i + 1; }
        } else {
          out := out + [args[i]];
        }
      }
      i := i + 1;
    }
    NoArgs(flagEnd - i);
    assert From(args, i) == [] && out + [] == out;
  }

  function From(args: seq<Token>, i: nat): seq<Token> { if i <= |args| then args[i..] else [] }

  lemma NoArgs(n: int)
    ensures ChildArgs([], n) == []
  {
  }

  lemma ChildStep(args: seq<Token>, i: nat, flagEnd: int, out: seq<Token>)
    requires i < |args|
    ensures var (name, hasValue) := FlagTokenName(args[i]);
      var drops := i < flagEnd && Launches(name);
      var next := if drops && name == "log" && !hasValue then i + 2 else i + 1;
      out + ChildArgs(From(args, i), flagEnd - i)
      == (if drops then out else out + [args[i]]) + ChildArgs(From(args, next), flagEnd - next)
  {
    hide FlagTokenName;
    var here := args[i..];
    assert here[0] == args[i] && here[1..] == args[i + 1..];
    if |here| >= 2 {
      assert here[2..] == args[i + 2..];
    }
    if i >= flagEnd {
      assert here == [args[i]] + args[i + 1..];
      assert ChildArgs(From(args, i + 1), flagEnd - i - 1) == args[i + 1..];
      assert out + ([args[i]] + args[i + 1..]) == (out + [args[i]]) + args[i + 1..];
    } else {
      var more := ChildArgs(args[i + 1..], flagEnd - i - 1);
      assert out + ([args[i]] + more) == (out + [args[i]]) + more;
    }
  }

  /** The child's arguments: a relaunch, without what made this process detach. */
  function DetachArgv(args: seq<Token>, flagEnd: int): seq<Token> { ["--relaunch"] + ChildArgs(args, flagEnd) }
}
