/** Moving the efforts that agent profiles declare into the routing table
    (go/cmd/evolve/cli_routing_effort_migrate.go, go/internal/policy/effort.go). */
module ProfileEffort {
  import opened Base
  import opened Routing
  import RoutingTables
  import MemberRemoval

  /** What a profile declares; an absent level or table of overrides is not an empty one. */
  datatype Profile = Profile(name: string, tierDefault: string, level: Option<string>, overrides: Option<map<string, string>>)

  /** A file of the profile directory, without its content when it cannot be read. */
  datatype ProfileFile = ProfileFile(file: string, content: Option<Bytes>)

  type Parser = Bytes -> Option<Profile>

  const UNSET_TIER := "balanced"

  const DEFAULT_EFFORTS: map<string, string> := map["fast" := "low", "balanced" := "medium", "deep" := "medium", "top" := "medium"]

  function Ascii(s: string): Bytes { seq(|s|, i requires 0 <= i < |s| => (s[i] as int % 256) as byte) }

  const RETIRED: seq<Bytes> := [Ascii("effort_level"), Ascii("effort_overrides")]

  /** The effort at a tier for the first of the agents that sets one. */
  function Resolve(t: Table, tier: string, agents: seq<string>): string {
    if agents != [] then
      var effort := At(t.agents, agents[0], NO_AGENT).effort;
      if effort != "" then effort else Resolve(t, tier, agents[1..])
    else
      var effort := At(t.tiers, tier, NO_TIER).effort;
      if effort != "" then effort else At(DEFAULT_EFFORTS, tier, "")
  }

  /** The effort of one agent at a tier: what its rule sets, else what the tier sets, else the default of the tier. */
  ghost function EffortOf(t: Table, tier: string, agent: string): string {
    if agent in t.agents && t.agents[agent].effort != "" then t.agents[agent].effort
    else if tier in t.tiers && t.tiers[tier].effort != "" then t.tiers[tier].effort
    else if tier == "fast" then "low"
    else if tier == "balanced" || tier == "deep" || tier == "top" then "medium"
    else ""
  }

  lemma ResolveOrder(t: Table, tier: string, agent: string)
    ensures Resolve(t, tier, [agent]) == EffortOf(t, tier, agent)
    ensures agent !in t.agents ==> Resolve(t, tier, []) == EffortOf(t, tier, agent)
  {
    assert [agent][1..] == [];
  }

  function WithoutAgentEffort(t: Table, agent: string): Table {
    if agent in t.agents then t.(agents := t.agents[agent := t.agents[agent].(effort := "")]) else t
  }

  const NO_EDIT := Edit("", [], "", "", "", "", 0)

  function LevelOf(p: Profile): string { if p.level.Some? then p.level.value else "" }

  function OverridesOf(p: Profile): map<string, string> { if p.overrides.Some? then p.overrides.value else map[] }

  function DispatchTier(p: Profile): string { Or(p.tierDefault, UNSET_TIER) }

  /** The table with the profile's level, where the level is not what the agent inherits anyway. */
  function WithLevel(t: Table, p: Profile): Result<Table> {
    var level := LevelOf(p);
    if level == "" then Ok(t)
    else
      var inherited := Resolve(WithoutAgentEffort(t, p.name), DispatchTier(p), []);
      var current := At(t.agents, p.name, NO_AGENT).effort;
      if current != "" && current != level then Err
      else if current == "" && level != inherited then
        Ok(t.(agents := t.agents[p.name := AgentRuleWith(At(t.agents, p.name, NO_AGENT), NO_EDIT.(effort := level))]))
      else Ok(t)
  }

  predicate OverridesHold(t: Table, p: Profile) {
    forall tier :: tier in OverridesOf(p) ==> Resolve(t, tier, [p.name]) == OverridesOf(p)[tier]
  }

  function MoveOne(t: Table, p: Profile): Result<Table> {
    match WithLevel(t, p)
    case Err => Err
    case Ok(moved) => if OverridesHold(moved, p) then Ok(moved) else Err
  }

  predicate Declares(p: Option<Profile>) {
    p.Some? && p.value.name != "" && (p.value.level.Some? || p.value.overrides.Some?)
  }

  // ---------------------------------------------------------------- one profile

  /** An agent's effort is a matter of the tiers and of that agent's rule only. */
  lemma ResolveFrame(a: Table, b: Table, tier: string, agent: string)
    requires a.tiers == b.tiers && At(a.agents, agent, NO_AGENT).effort == At(b.agents, agent, NO_AGENT).effort
    ensures Resolve(a, tier, [agent]) == Resolve(b, tier, [agent])
  {
    assert [agent][1..] == [];
  }

  /** A table in which no effort that `t` sets for an agent is lost, and no agent outside `names` is changed. */
  ghost predicate Extends(t: Table, u: Table, names: set<string>) {
    && u == t.(agents := u.agents)
    && (forall a :: a !in names ==> (a in u.agents <==> a in t.agents))
    && (forall a :: a in t.agents ==> a in u.agents)
    && (forall a :: a in t.agents ==> a !in names ==> u.agents[a] == t.agents[a])
    && (forall a :: a in t.agents ==> u.agents[a] == t.agents[a].(effort := u.agents[a].effort))
    && (forall a :: a in t.agents && t.agents[a].effort != "" ==> u.agents[a].effort == t.agents[a].effort)
  }

  /** What the profile declares is what the table resolves: its level at the tier it dispatches at, and each override. */
  predicate Honours(t: Table, p: Profile) {
    && (LevelOf(p) != "" ==> Resolve(t, DispatchTier(p), [p.name]) == LevelOf(p))
    && OverridesHold(t, p)
  }

  lemma LevelResolves(t: Table, p: Profile)
    requires WithLevel(t, p).Ok? && LevelOf(p) != ""
    ensures Resolve(WithLevel(t, p).value, DispatchTier(p), [p.name]) == LevelOf(p)
  {
    var u := WithLevel(t, p).value;
    assert [p.name][1..] == [];
    assert Resolve(u, DispatchTier(p), []) == Resolve(WithoutAgentEffort(t, p.name), DispatchTier(p), []);
  }

  /** Moving one profile changes at most the effort of the agent of that name, never one that is set already, and
      the result honours the profile. */
  lemma MoveOneHonours(t: Table, p: Profile)
    requires MoveOne(t, p).Ok?
    ensures Extends(t, MoveOne(t, p).value, {p.name}) && Honours(MoveOne(t, p).value, p)
  {
    hide OverridesHold;
    if LevelOf(p) != "" {
      LevelResolves(t, p);
    }
    assert Extends(t, WithLevel(t, p).value, {p.name}) by {
      hide Resolve;
    }
  }

  /** It fails exactly when the table already has another effort for the agent, or when the table with the level
      would not give every override. */
  lemma MoveOneRefuses(t: Table, p: Profile)
    ensures MoveOne(t, p).Err? <==>
      || (LevelOf(p) != "" && p.name in t.agents && t.agents[p.name].effort !in {"", LevelOf(p)})
      || exists tier :: tier in OverridesOf(p) &&
           OverridesOf(p)[tier] != (if LevelOf(p) != "" && LevelOf(p) != Resolve(t, DispatchTier(p), []) then LevelOf(p)
                                    else Resolve(t, tier, [p.name]))
  {
    assert [p.name][1..] == [];
    if LevelOf(p) != "" && p.name in t.agents && t.agents[p.name].effort !in {"", LevelOf(p)} {
    } else {
      var u := WithLevel(t, p).value;
      forall tier
        ensures Resolve(u, tier, [p.name]) ==
          if LevelOf(p) != "" && LevelOf(p) != Resolve(t, DispatchTier(p), []) then LevelOf(p) else Resolve(t, tier, [p.name])
      {
      }
    }
  }

  // ---------------------------------------------------------------- the directory

  /** The profile that a file declares efforts in, if any. */
  function DeclaredIn(f: ProfileFile, parse: Parser): Option<Profile> {
    if f.content.Some? && Declares(parse(f.content.value)) then parse(f.content.value) else None
  }

  /** The table after the files, in their order. */
  function MoveAll(t: Table, files: seq<ProfileFile>, parse: Parser, unquote: MemberRemoval.Unquote): Result<Table> {
    if files == [] then Ok(t)
    else
      var last := files[|files| - 1];
      match MoveAll(t, files[..|files| - 1], parse, unquote)
      case Err => Err
      case Ok(before) =>
        if last.content.None? then Err
        else if DeclaredIn(last, parse).None? then Ok(before)
        else
          match MoveOne(before, DeclaredIn(last, parse).value)
          case Err => Err
          case Ok(moved) =>
            if MemberRemoval.RemoveKeys(last.content.value, RETIRED, unquote).Err? then Err else Ok(moved)
  }

  /** The files to rewrite: those that declare an effort, with the two retired members cut out. */
  function Rewrites(files: seq<ProfileFile>, parse: Parser, unquote: MemberRemoval.Unquote): map<string, Bytes> {
    if files == [] then map[]
    else
      var last, before := files[|files| - 1], Rewrites(files[..|files| - 1], parse, unquote);
      if DeclaredIn(last, parse).None? then before
      else
        match MemberRemoval.RemoveKeys(last.content.value, RETIRED, unquote)
        case Err => before
        case Ok(text) => before[last.file := text]
  }

  lemma {:induction false} MoveAllFails(t: Table, files: seq<ProfileFile>, parse: Parser, unquote: MemberRemoval.Unquote, n: nat)
    requires n <= |files| && MoveAll(t, files[..n], parse, unquote).Err?
    ensures MoveAll(t, files, parse, unquote).Err?
    decreases |files|
  {
    if n < |files| {
      assert files[..|files| - 1][..n] == files[..n];
      MoveAllFails(t, files[..|files| - 1], parse, unquote, n);
    } else {
      assert files[..n] == files;
    }
  }

  lemma NoFiles(t: Table, parse: Parser, unquote: MemberRemoval.Unquote, files: seq<ProfileFile>)
    ensures files[..0] == [] && MoveAll(t, [], parse, unquote) == Ok(t) && Rewrites([], parse, unquote) == map[]
  {
  }

  /** One file more. */
  lemma MoveAllStep(t: Table, files: seq<ProfileFile>, parse: Parser, unquote: MemberRemoval.Unquote, n: nat, u: Table)
    requires n < |files| && MoveAll(t, files[..n], parse, unquote) == Ok(u)
    ensures var f, next := files[n], files[..n + 1];
      var p, text := DeclaredIn(f, parse), MemberRemoval.RemoveKeys(if f.content.Some? then f.content.value else [], RETIRED, unquote);
      && MoveAll(t, next, parse, unquote) ==
           (if f.content.None? then Err else if p.None? then Ok(u)
            else if MoveOne(u, p.value).Err? || text.Err? then Err else MoveOne(u, p.value))
      && Rewrites(next, parse, unquote) ==
           if p.None? || text.Err? then Rewrites(files[..n], parse, unquote) else Rewrites(files[..n], parse, unquote)[f.file := text.value]
  {
    hide MoveOne, Declares, MemberRemoval.RemoveKeys;
    assert files[..n + 1][..n] == files[..n];
  }

  /** Goes through the files and fills the rewrites, which the caller shares. */
  method MoveProfileEfforts(files: seq<ProfileFile>, block: Table, rewrites: RoutingTables.GoMap<Bytes>,
                            parse: Parser, unquote: MemberRemoval.Unquote)
    returns (r: Result<Table>)
    modifies rewrites
    ensures r == MoveAll(block, files, parse, unquote)
    ensures r.Ok? ==> rewrites.entries == old(rewrites.entries) + Rewrites(files, parse, unquote)
  {
    hide MoveOne, MoveAll, Rewrites, MemberRemoval.RemoveKeys;
    var t := block;
    NoFiles(block, parse, unquote, files);
    for n := 0 to |files|
      invariant MoveAll(block, files[..n], parse, unquote) == Ok(t)
      invariant rewrites.entries == old(rewrites.entries) + Rewrites(files[..n], parse, unquote)
    {
      var f := files[n];
      MoveAllStep(block, files, parse, unquote, n, t);
      if f.content.None? {
        MoveAllFails(block, files, parse, unquote, n + 1);
        return Err;
      }
      var p := parse(f.content.value);
      if !Declares(p) {
        continue;
      }
      var moved := MoveOne(t, p.value);
      if moved.Err? {
        MoveAllFails(block, files, parse, unquote, n + 1);
        return Err;
      }
      var text := MemberRemoval.RemoveTopLevelKeys(f.content.value, RETIRED, unquote);
      if text.Err? {
        MoveAllFails(block, files, parse, unquote, n + 1);
        return Err;
      }
      t := moved.value;
      rewrites.entries := rewrites.entries[f.file := text.value];
    }
    assert files[..|files|] == files;
    r := Ok(t);
  }
}
