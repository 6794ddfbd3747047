/** Which tokens are flags, for the parser and for the rewriting (go/cmd/evolve/cmd_loop_args.go): one dash or two, a
    name, and a value behind the first `=` if there is one. */
module FlagTokens {
  import opened Base
  import opened DetachArgs

  lemma {:induction false} NoEquals(s: string)
    requires forall i :: 0 <= i < |s| ==> s[i] != '='
    ensures EqualsIndex(s) == |s|
  {
    if s != [] {
      NoEquals(s[1..]);
    }
  }

  /** A flag as a user writes it: one dash or two, the name, and a value behind `=` if there is one. */
  function Written(two: bool, name: string, value: Option<string>): Token {
    (if two then "--" else "-") + (if value.Some? then name + "=" + value.value else name)
  }

  predicate FlagName(name: string) { name != [] && name[0] != '-' && forall i :: 0 <= i < |name| ==> name[i] != '=' }

  lemma {:induction false} FirstEquals(name: string, v: string)
    requires forall i :: 0 <= i < |name| ==> name[i] != '='
    ensures EqualsIndex(name + "=" + v) == |name|
  {
    var s := name + "=" + v;
    if name != [] {
      FirstEquals(name[1..], v);
      assert s[1..] == name[1..] + "=" + v;
    }
  }

  lemma {:induction false} EqualsStands(s: string)
    ensures var i := EqualsIndex(s);
      (forall j :: 0 <= j < i ==> s[j] != '=') && (i < |s| ==> s[i] == '=')
  {
    if s != [] && s[0] != '=' {
      EqualsStands(s[1..]);
    }
  }

  /** A text is cut into a name without `=` and the value, which may hold more of them. */
  lemma CutsAt(s: string, name: string, value: Option<string>)
    requires forall i :: 0 <= i < |name| ==> name[i] != '='
    ensures CutEquals(s) == (name, value) <==> s == (if value.Some? then name + "=" + value.value else name)
  {
    var i := EqualsIndex(s);
    EqualsStands(s);
    assert i < |s| ==> s == s[..i] + "=" + s[i + 1..];
    assert i == |s| ==> s[..i] == s;
    if value.Some? {
      FirstEquals(name, value.value);
      var t := name + "=" + value.value;
      assert t[..|name|] == name && t[|name| + 1..] == value.value;
    } else {
      NoEquals(name);
      assert name[..|name|] == name;
    }
  }

  /** The parser reads a token as a flag exactly when it is so written; what stands behind the first `=` is the value,
      whatever it holds. */
  lemma FlagsAsWritten(s: Token, name: string, value: Option<string>)
    ensures HeadOf(s) == Flag(name, value) <==>
      FlagName(name) && (s == Written(false, name, value) || s == Written(true, name, value))
  {
    var text := if value.Some? then name + "=" + value.value else name;
    Dashes(s, text);
    if |s| >= 2 && s[0] == '-' {
      var body := if s[1] == '-' then s[2..] else s[1..];
      EqualsStands(body);
      if FlagName(name) {
        CutsAt(body, name, value);
        assert text[0] == name[0];
      }
    } else if FlagName(name) {
      assert |text| > 0;
    }
  }

  /** The rewriting names a token after a flag exactly when it is so written. */
  lemma NamedAsWritten(s: Token, name: string)
    requires FlagName(name)
    ensures FlagTokenName(s) == (name, false) <==> s == Written(false, name, None) || s == Written(true, name, None)
    ensures FlagTokenName(s) == (name, true) <==>
      exists v: string :: s == Written(false, name, Some(v)) || s == Written(true, name, Some(v))
  {
    if s != [] && s[0] == '-' && s != "--" {
      var once := s[1..];
      var body := if once != [] && once[0] == '-' then once[1..] else once;
      CutsAt(body, name, None);
      Dashes(s, name);
      forall v: string
        ensures CutEquals(body) == (name, Some(v)) <==> s == Written(false, name, Some(v)) || s == Written(true, name, Some(v))
      {
        CutsAt(body, name, Some(v));
        Dashes(s, name + "=" + v);
        assert (name + "=" + v)[0] == name[0];
      }
      var (n, value) := CutEquals(body);
      if n == name && value.Some? {
        assert s == Written(false, name, Some(value.value)) || s == Written(true, name, Some(value.value));
      }
    } else {
      NotWritten(s, name);
    }
  }

  lemma NotWritten(s: Token, name: string)
    requires FlagName(name) && (s == [] || s[0] != '-' || s == "--")
    ensures forall two, value :: s != Written(two, name, value)
  {
    forall two, value ensures s != Written(two, name, value) {
      var text := if value.Some? then name + "=" + value.value else name;
      assert text[0] == name[0];
      assert Written(two, name, value)[0] == '-';
      assert Written(two, name, value)[if two then 2 else 1] == text[0];
    }
  }

  lemma Dashes(s: Token, text: string)
    ensures s == "-" + text <==> |s| >= 1 && s[0] == '-' && s[1..] == text
    ensures s == "--" + text <==> |s| >= 2 && s[0] == '-' && s[1] == '-' && s[2..] == text
  {
    if |s| >= 1 && s[0] == '-' {
      assert s == "-" + s[1..];
    }
    if |s| >= 2 && s[0] == '-' && s[1] == '-' {
      assert s == "--" + s[2..];
    }
    assert ("-" + text)[1..] == text && ("--" + text)[2..] == text;
  }

  // ---------------------------------------------------------------- what the rewriting drops

  lemma FirstToken(t: Token, more: seq<Token>, n: int)
    requires n > 0
    ensures var (name, hasValue) := FlagTokenName(t);
      ChildArgs([t] + more, n) ==
        if !Launches(name) then [t] + ChildArgs(more, n - 1)
        else if name == "log" && !hasValue then (if more == [] then [] else ChildArgs(more[1..], n - 2))
        else ChildArgs(more, n - 1)
  {
    hide FlagTokenName;
    var all := [t] + more;
    assert all[0] == t && all[1..] == more && (more != [] ==> all[2..] == more[1..]);
    assert ChildArgs([], n - 1) == [] && ChildArgs([], n - 2) == [];
  }

  /** detach, json or log, set by `=` to anything, is dropped alone. */
  lemma SetFlagDroppedAlone(two: bool, name: string, v: string, more: seq<Token>, n: int)
    requires name in {"detach", "json", "log"} && n > 0
    ensures ChildArgs([Written(two, name, Some(v))] + more, n) == ChildArgs(more, n - 1)
  {
    hide FlagTokenName, ChildArgs;
    LaunchNames();
    NamedAsWritten(Written(two, name, Some(v)), name);
    hide Written;
    FirstToken(Written(two, name, Some(v)), more, n);
  }

  /** Without a value, detach and json are dropped alone, and log takes the next token with it. */
  lemma BareFlagDropped(two: bool, name: string, more: seq<Token>, n: int)
    requires name in {"detach", "json", "log"} && n > 0
    ensures ChildArgs([Written(two, name, None)] + more, n) ==
      if name != "log" then ChildArgs(more, n - 1) else if more == [] then [] else ChildArgs(more[1..], n - 2)
  {
    hide FlagTokenName, ChildArgs;
    LaunchNames();
    NamedAsWritten(Written(two, name, None), name);
    hide Written;
    FirstToken(Written(two, name, None), more, n);
  }

  /** Every other token stays, and so does all that is behind the flags. */
  lemma OthersStay(t: Token, more: seq<Token>, n: int)
    requires n <= 0 || forall two, value :: t != Written(two, "detach", value) && t != Written(two, "json", value) && t != Written(two, "log", value)
    ensures ChildArgs([t] + more, n) == [t] + if n <= 0 then more else ChildArgs(more, n - 1)
  {
    if n > 0 {
      hide FlagTokenName, ChildArgs, Written;
      LaunchNames();
      NamedAsWritten(t, "detach");
      NamedAsWritten(t, "json");
      NamedAsWritten(t, "log");
      FirstToken(t, more, n);
      var (name, hasValue) := FlagTokenName(t);
      assert hasValue || !hasValue;
    }
  }

  lemma LaunchNames()
    ensures FlagName("detach") && FlagName("json") && FlagName("log")
  {
  }
}
