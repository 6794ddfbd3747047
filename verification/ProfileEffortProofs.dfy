/** Which profiles a table still honours after the profiles of a whole directory have moved into it. */
module ProfileEffortProofs {
  import opened Base
  import opened Routing
  import opened ProfileEffort
  import MemberRemoval

  // ---------------------------------------------------------------- efforts, file by file

  function EffortAt(t: Table, agent: string): string { At(t.agents, agent, NO_AGENT).effort }

  /** The profile's level goes into the table: the agent has no effort yet, and would not inherit that level. */
  predicate Sets(t: Table, q: Profile) {
    LevelOf(q) != "" && EffortAt(t, q.name) == "" && LevelOf(q) != Resolve(t, DispatchTier(q), [])
  }

  /** The profile declares nothing but this level, at any tier. */
  predicate Agrees(p: Profile, level: string) {
    && (LevelOf(p) == "" || LevelOf(p) == level)
    && forall tier :: tier in OverridesOf(p) ==> OverridesOf(p)[tier] == level
  }

  lemma HonoursAtEffort(u: Table, p: Profile)
    requires EffortAt(u, p.name) != ""
    ensures Honours(u, p) <==> Agrees(p, EffortAt(u, p.name))
  {
    forall tier ensures Resolve(u, tier, [p.name]) == EffortAt(u, p.name) {
    }
    hide Resolve;
  }

  lemma HonoursFrame(t: Table, u: Table, p: Profile)
    requires t.tiers == u.tiers && EffortAt(t, p.name) == EffortAt(u, p.name)
    ensures Honours(t, p) <==> Honours(u, p)
  {
    forall tier ensures Resolve(t, tier, [p.name]) == Resolve(u, tier, [p.name]) {
      ResolveFrame(t, u, tier, p.name);
    }
    hide Resolve;
  }

  lemma MoveOneEffort(t: Table, q: Profile)
    requires MoveOne(t, q).Ok?
    ensures var u := MoveOne(t, q).value;
      && u.tiers == t.tiers
      && (forall a :: EffortAt(u, a) == if a == q.name && Sets(t, q) then LevelOf(q) else EffortAt(t, a))
      && (forall a :: a in u.agents <==> a in t.agents || (a == q.name && Sets(t, q)))
    ensures LevelOf(q) != "" && EffortAt(t, q.name) != "" ==> EffortAt(t, q.name) == LevelOf(q)
  {
    hide OverridesHold;
    InheritedAlike(t, q);
    hide Resolve, WithoutAgentEffort;
  }

  lemma InheritedAlike(t: Table, q: Profile)
    ensures Resolve(WithoutAgentEffort(t, q.name), DispatchTier(q), []) == Resolve(t, DispatchTier(q), [])
  {
  }

  ghost predicate SomeSets(t: Table, files: seq<ProfileFile>, parse: Parser, agent: string) {
    exists j :: 0 <= j < |files| && SetsAt(t, files, parse, agent, j)
  }

  /** File `j` is a profile of this name whose level goes into the table. */
  predicate SetsAt(t: Table, files: seq<ProfileFile>, parse: Parser, agent: string, j: nat)
    requires j < |files|
  {
    var q := DeclaredIn(files[j], parse);
    q.Some? && q.value.name == agent && Sets(t, q.value)
  }

  /** What a move over the files does to one agent, in terms of the table before it. */
  ghost predicate TracksAgent(t: Table, u: Table, files: seq<ProfileFile>, parse: Parser, a: string) {
    && (EffortAt(t, a) != "" ==> EffortAt(u, a) == EffortAt(t, a))
    && (forall j :: 0 <= j < |files| && SetsAt(t, files, parse, a, j) ==> EffortAt(u, a) == LevelOf(DeclaredIn(files[j], parse).value))
    && (EffortAt(u, a) != EffortAt(t, a) ==> SomeSets(t, files, parse, a))
    && (a in u.agents <==> a in t.agents || SomeSets(t, files, parse, a))
  }

  ghost predicate Tracks(t: Table, u: Table, files: seq<ProfileFile>, parse: Parser) {
    u.tiers == t.tiers && forall a :: TracksAgent(t, u, files, parse, a)
  }

  lemma SomeSetsSnoc(t: Table, files: seq<ProfileFile>, parse: Parser, agent: string)
    requires files != []
    ensures var m := |files| - 1;
      SomeSets(t, files, parse, agent) <==> SomeSets(t, files[..m], parse, agent) || SetsAt(t, files, parse, agent, m)
  {
    hide DeclaredIn, Sets;
    var m := |files| - 1;
    assert forall j :: 0 <= j < m ==> SetsAt(t, files[..m], parse, agent, j) == SetsAt(t, files, parse, agent, j);
  }

  lemma {:induction false} MoveAllTracks(t: Table, files: seq<ProfileFile>, parse: Parser, unquote: MemberRemoval.Unquote)
    requires MoveAll(t, files, parse, unquote).Ok?
    ensures Tracks(t, MoveAll(t, files, parse, unquote).value, files, parse)
    decreases |files|
  {
    hide MoveOne, DeclaredIn, Sets, MemberRemoval.RemoveKeys;
    if files != [] {
      var m := |files| - 1;
      var front, last := files[..m], DeclaredIn(files[m], parse);
      var before, u := MoveAll(t, front, parse, unquote).value, MoveAll(t, files, parse, unquote).value;
      MoveAllTracks(t, front, parse, unquote);
      hide MoveAll;
      if last.Some? {
        MoveOneEffort(before, last.value);
        TracksOne(t, before, u, files, parse);
      } else {
        TracksNone(t, u, files, parse);
      }
    }
  }

  lemma TracksNone(t: Table, u: Table, files: seq<ProfileFile>, parse: Parser)
    requires files != [] && Tracks(t, u, files[..|files| - 1], parse) && DeclaredIn(files[|files| - 1], parse).None?
    ensures Tracks(t, u, files, parse)
  {
    hide TracksAgent, DeclaredIn;
    forall a ensures TracksAgent(t, u, files, parse, a) {
      assert TracksAgent(t, u, files[..|files| - 1], parse, a);
      AgentStep(t, u, u, files, parse, a);
    }
  }

  lemma TracksOne(t: Table, before: Table, u: Table, files: seq<ProfileFile>, parse: Parser)
    requires files != [] && Tracks(t, before, files[..|files| - 1], parse) && DeclaredIn(files[|files| - 1], parse).Some?
    requires var q := DeclaredIn(files[|files| - 1], parse).value;
      && u.tiers == before.tiers
      && (forall a :: EffortAt(u, a) == if a == q.name && Sets(before, q) then LevelOf(q) else EffortAt(before, a))
      && (forall a :: a in u.agents <==> a in before.agents || (a == q.name && Sets(before, q)))
      && (LevelOf(q) != "" && EffortAt(before, q.name) != "" ==> EffortAt(before, q.name) == LevelOf(q))
    ensures Tracks(t, u, files, parse)
  {
    OneSets(t, before, files, parse);
    hide TracksAgent, DeclaredIn, EffortAt, Sets, SomeSets;
    forall a ensures TracksAgent(t, u, files, parse, a) {
      assert TracksAgent(t, before, files[..|files| - 1], parse, a);
      AgentStep(t, before, u, files, parse, a);
    }
  }

  /** One file more, for one agent. */
  lemma AgentStep(t: Table, before: Table, u: Table, files: seq<ProfileFile>, parse: Parser, a: string)
    requires files != [] && TracksAgent(t, before, files[..|files| - 1], parse, a)
    requires var last := DeclaredIn(files[|files| - 1], parse);
      if last.Some? && last.value.name == a && Sets(before, last.value)
      then EffortAt(u, a) == LevelOf(last.value) && a in u.agents && Sets(t, last.value) && !SomeSets(t, files[..|files| - 1], parse, a)
      else
        && EffortAt(u, a) == EffortAt(before, a) && (a in u.agents <==> a in before.agents)
        && (last.Some? && last.value.name == a && Sets(t, last.value) ==>
              EffortAt(before, a) == LevelOf(last.value) && EffortAt(before, a) != "")
    ensures TracksAgent(t, u, files, parse, a)
  {
    var m := |files| - 1;
    var front, last := files[..m], DeclaredIn(files[m], parse);
    SomeSetsSnoc(t, files, parse, a);
    assert last.Some? && Sets(t, last.value) && last.value.name == a ==> EffortAt(t, a) == "";
    assert EffortAt(before, a) != "" ==> a in before.agents;
    hide DeclaredIn, EffortAt, Sets;
    forall j | 0 <= j < |files| && SetsAt(t, files, parse, a, j)
      ensures EffortAt(u, a) == LevelOf(DeclaredIn(files[j], parse).value)
    {
      if j < m {
        assert front[j] == files[j];
        assert SetsAt(t, front, parse, a, j);
      }
    }
    hide SetsAt;
  }

  /** The level of the last file goes into the table as it is by then, exactly when it would go into the first table
      and has not gone in already. */
  lemma OneSets(t: Table, before: Table, files: seq<ProfileFile>, parse: Parser)
    requires files != [] && Tracks(t, before, files[..|files| - 1], parse) && DeclaredIn(files[|files| - 1], parse).Some?
    ensures var q := DeclaredIn(files[|files| - 1], parse).value;
      && (Sets(before, q) ==> Sets(t, q) && !SomeSets(t, files[..|files| - 1], parse, q.name))
      && (Sets(t, q) && !Sets(before, q) ==> EffortAt(before, q.name) != "")
  {
    hide DeclaredIn, EffortAt;
    var front, q := files[..|files| - 1], DeclaredIn(files[|files| - 1], parse).value;
    assert Resolve(before, DispatchTier(q), []) == Resolve(t, DispatchTier(q), []);
    assert TracksAgent(t, before, front, parse, q.name);
  }

  // ---------------------------------------------------------------- who is honoured

  /** No later profile of the same name puts a level into the table that this one does not agree with. */
  predicate NoneLaterDisagrees(t: Table, files: seq<ProfileFile>, parse: Parser, i: nat)
    requires i < |files| && DeclaredIn(files[i], parse).Some?
  {
    var p := DeclaredIn(files[i], parse).value;
    forall j :: i < j < |files| && SetsAt(t, files, parse, p.name, j) ==> Agrees(p, LevelOf(DeclaredIn(files[j], parse).value))
  }

  /** After a whole directory has moved, a profile still has what it declared exactly when no later profile of its
      name brings another level into the table. The condition is about the profiles and the table before the move. */
  lemma {:induction false} HonouredExactly(t: Table, files: seq<ProfileFile>, parse: Parser, unquote: MemberRemoval.Unquote, i: nat)
    requires MoveAll(t, files, parse, unquote).Ok? && i < |files| && DeclaredIn(files[i], parse).Some?
    ensures Honours(MoveAll(t, files, parse, unquote).value, DeclaredIn(files[i], parse).value)
      <==> NoneLaterDisagrees(t, files, parse, i)
    decreases |files|
  {
    hide MoveOne, DeclaredIn, Sets, Agrees, Honours, Tracks, EffortAt, MemberRemoval.RemoveKeys;
    var m := |files| - 1;
    var front, last := files[..m], DeclaredIn(files[m], parse);
    var before, u := MoveAll(t, front, parse, unquote).value, MoveAll(t, files, parse, unquote).value;
    MoveAllTracks(t, front, parse, unquote);
    if i == m {
      assert u == MoveOne(before, last.value).value;
      hide MoveAll;
      MoveOneHonours(before, last.value);
    } else {
      assert front[i] == files[i];
      HonouredExactly(t, front, parse, unquote, i);
      var p := DeclaredIn(files[i], parse).value;
      if last.Some? {
        assert u == MoveOne(before, last.value).value && MoveOne(before, last.value).Ok?;
        hide MoveAll;
        LastDecides(t, before, files, parse, i);
        HonouredSnoc(t, files, parse, i);
      } else {
        assert u == before;
        hide MoveAll;
        HonouredSnoc(t, files, parse, i);
      }
    }
  }

  lemma HonouredSnoc(t: Table, files: seq<ProfileFile>, parse: Parser, i: nat)
    requires i < |files| - 1 && DeclaredIn(files[i], parse).Some?
    ensures var m, p := |files| - 1, DeclaredIn(files[i], parse).value;
      && DeclaredIn(files[..m][i], parse).Some?
      && (NoneLaterDisagrees(t, files, parse, i) <==>
            && NoneLaterDisagrees(t, files[..m], parse, i)
            && (SetsAt(t, files, parse, p.name, m) ==> Agrees(p, LevelOf(DeclaredIn(files[m], parse).value))))
  {
    hide DeclaredIn, Sets, Agrees;
    var m, p := |files| - 1, DeclaredIn(files[i], parse).value;
    var front := files[..m];
    assert front[i] == files[i];
    forall j | 0 <= j < m ensures SetsAt(t, front, parse, p.name, j) == SetsAt(t, files, parse, p.name, j) {
      assert front[j] == files[j];
    }
    hide SetsAt;
    assert forall j :: 0 <= j < m ==> front[j] == files[j];
  }

  /** The last step: what it does to a profile that was moved before it. */
  lemma LastDecides(t: Table, before: Table, files: seq<ProfileFile>, parse: Parser, i: nat)
    requires i < |files| - 1 && DeclaredIn(files[i], parse).Some? && DeclaredIn(files[|files| - 1], parse).Some?
    requires DeclaredIn(files[..|files| - 1][i], parse).Some?
    requires Tracks(t, before, files[..|files| - 1], parse)
    requires MoveOne(before, DeclaredIn(files[|files| - 1], parse).value).Ok?
    requires Honours(before, DeclaredIn(files[i], parse).value) <==> NoneLaterDisagrees(t, files[..|files| - 1], parse, i)
    ensures var m, p, q := |files| - 1, DeclaredIn(files[i], parse).value, DeclaredIn(files[|files| - 1], parse).value;
      Honours(MoveOne(before, q).value, p) <==>
        && NoneLaterDisagrees(t, files[..m], parse, i)
        && (SetsAt(t, files, parse, p.name, m) ==> Agrees(p, LevelOf(q)))
  {
    var m, p, q := |files| - 1, DeclaredIn(files[i], parse).value, DeclaredIn(files[|files| - 1], parse).value;
    var front := files[..m];
    var u := MoveOne(before, q).value;
    hide DeclaredIn, MoveOne, Agrees, Honours, EffortAt, Tracks, SomeSets, NoneLaterDisagrees;
    MoveOneEffort(before, q);
    OneSets(t, before, files, parse);
    assert LevelOf(q) != "" || !Sets(t, q);
    hide Sets;
    if q.name == p.name && Sets(before, q) {
      assert front[i] == files[i];
      NoneSetsNoneDisagrees(t, files, parse, i);
      HonoursAtEffort(u, p);
    } else {
      HonoursFrame(before, u, p);
      if q.name == p.name && Sets(t, q) {
        HonoursAtEffort(before, p);
      }
    }
  }

  lemma NoneSetsNoneDisagrees(t: Table, files: seq<ProfileFile>, parse: Parser, i: nat)
    requires i < |files| - 1 && DeclaredIn(files[i], parse).Some? && DeclaredIn(files[..|files| - 1][i], parse).Some?
    requires !SomeSets(t, files[..|files| - 1], parse, DeclaredIn(files[i], parse).value.name)
    ensures NoneLaterDisagrees(t, files[..|files| - 1], parse, i)
  {
    hide DeclaredIn, Sets, Agrees;
    assert files[..|files| - 1][i] == files[i];
  }

  /** Every profile of the directory is honoured if and only if none is disagreed with. */
  lemma AllHonouredExactly(t: Table, files: seq<ProfileFile>, parse: Parser, unquote: MemberRemoval.Unquote)
    requires MoveAll(t, files, parse, unquote).Ok?
    ensures (forall i :: 0 <= i < |files| && DeclaredIn(files[i], parse).Some? ==>
               Honours(MoveAll(t, files, parse, unquote).value, DeclaredIn(files[i], parse).value))
       <==> (forall i :: 0 <= i < |files| && DeclaredIn(files[i], parse).Some? ==> NoneLaterDisagrees(t, files, parse, i))
  {
    hide MoveAll, DeclaredIn, Honours, NoneLaterDisagrees;
    forall i | 0 <= i < |files| && DeclaredIn(files[i], parse).Some?
      ensures Honours(MoveAll(t, files, parse, unquote).value, DeclaredIn(files[i], parse).value)
         <==> NoneLaterDisagrees(t, files, parse, i)
    {
      HonouredExactly(t, files, parse, unquote, i);
    }
  }

  // ---------------------------------------------------------------- distinct names

  predicate DistinctNames(files: seq<ProfileFile>, parse: Parser) {
    forall i, j :: 0 <= i < j < |files| && DeclaredIn(files[i], parse).Some? && DeclaredIn(files[j], parse).Some? ==>
      DeclaredIn(files[i], parse).value.name != DeclaredIn(files[j], parse).value.name
  }

  ghost function Names(files: seq<ProfileFile>, parse: Parser): set<string> {
    set i | 0 <= i < |files| && DeclaredIn(files[i], parse).Some? :: DeclaredIn(files[i], parse).value.name
  }

  lemma ExtendsTransitive(t: Table, u: Table, v: Table, a: set<string>, b: set<string>)
    requires Extends(t, u, a) && Extends(u, v, b)
    ensures Extends(t, v, a + b)
  {
  }

  lemma {:induction false} MoveAllExtends(t: Table, files: seq<ProfileFile>, parse: Parser, unquote: MemberRemoval.Unquote)
    requires MoveAll(t, files, parse, unquote).Ok?
    ensures Extends(t, MoveAll(t, files, parse, unquote).value, Names(files, parse))
    decreases |files|
  {
    hide MoveOne, DeclaredIn, Extends, MemberRemoval.RemoveKeys, Names;
    var u := MoveAll(t, files, parse, unquote).value;
    if files == [] {
      NothingMoved(t, Names(files, parse));
    } else {
      var m := |files| - 1;
      var before := MoveAll(t, files[..m], parse, unquote).value;
      MoveAllExtends(t, files[..m], parse, unquote);
      NamesSnoc(files, parse);
      var declared := DeclaredIn(files[m], parse);
      if declared.Some? {
        MoveOneHonours(before, declared.value);
        ExtendsTransitive(t, before, u, Names(files[..m], parse), {declared.value.name});
      } else {
        assert Names(files[..m], parse) + {} == Names(files[..m], parse);
      }
    }
  }

  /** When no two profiles share a name, the final table gives every profile the level and the overrides it declared,
      keeps every effort that was set before, and changes nothing but the efforts of the named agents. */
  lemma MoveAllHonours(t: Table, files: seq<ProfileFile>, parse: Parser, unquote: MemberRemoval.Unquote)
    requires DistinctNames(files, parse) && MoveAll(t, files, parse, unquote).Ok?
    ensures var u := MoveAll(t, files, parse, unquote).value;
      && Extends(t, u, Names(files, parse))
      && forall i :: 0 <= i < |files| && DeclaredIn(files[i], parse).Some? ==> Honours(u, DeclaredIn(files[i], parse).value)
  {
    MoveAllExtends(t, files, parse, unquote);
    AllHonouredExactly(t, files, parse, unquote);
    hide MoveAll, Extends, Names, DeclaredIn, Honours, Sets, Agrees;
    forall i | 0 <= i < |files| && DeclaredIn(files[i], parse).Some?
      ensures NoneLaterDisagrees(t, files, parse, i)
    {
    }
  }

  /** effort_level and effort_overrides, byte by byte. */
  ghost function EffortKeys(): seq<Bytes> {
    [[101, 102, 102, 111, 114, 116, 95, 108, 101, 118, 101, 108],
     [101, 102, 102, 111, 114, 116, 95, 111, 118, 101, 114, 114, 105, 100, 101, 115]]
  }

  lemma RetiredKeys()
    ensures RETIRED == EffortKeys()
  {
    var level: Bytes := [101, 102, 102, 111, 114, 116, 95, 108, 101, 118, 101, 108];
    var overrides: Bytes := [101, 102, 102, 111, 114, 116, 95, 111, 118, 101, 114, 114, 105, 100, 101, 115];
    assert Ascii("effort_level") == level;
    assert Ascii("effort_overrides") == overrides;
  }

  /** A file is rewritten exactly when it reads as a profile with a name that declares a level or overrides, and then
      the members effort_level and effort_overrides are cut out of its text. */
  lemma {:induction false} RewritesExactly(t: Table, files: seq<ProfileFile>, parse: Parser, unquote: MemberRemoval.Unquote, i: nat)
    requires MoveAll(t, files, parse, unquote).Ok? && i < |files|
    requires forall j, k :: 0 <= j < k < |files| ==> files[j].file != files[k].file
    ensures files[i].content.Some?
    ensures var raw, done := files[i].content.value, Rewrites(files, parse, unquote);
      && (files[i].file in done <==>
            parse(raw).Some? && parse(raw).value.name != "" && (parse(raw).value.level.Some? || parse(raw).value.overrides.Some?))
      && (files[i].file in done ==> MemberRemoval.RemoveKeys(raw, EffortKeys(), unquote) == Ok(done[files[i].file]))
    decreases |files|
  {
    RetiredKeys();
    hide MoveOne, MemberRemoval.RemoveKeys, EffortKeys;
    var m := |files| - 1;
    var front := files[..m];
    if i < m {
      assert front[i] == files[i];
      RewritesExactly(t, front, parse, unquote, i);
    } else {
      NotRewritten(front, parse, unquote, files[m].file);
    }
  }

  lemma {:induction false} NotRewritten(files: seq<ProfileFile>, parse: Parser, unquote: MemberRemoval.Unquote, file: string)
    requires forall j :: 0 <= j < |files| ==> files[j].file != file
    ensures file !in Rewrites(files, parse, unquote)
  {
    if files != [] {
      hide MemberRemoval.RemoveKeys, DeclaredIn;
      NotRewritten(files[..|files| - 1], parse, unquote, file);
    }
  }

  /** The promise of the move, file by file: whatever a profile of its own name declares is what the table resolves. */
  lemma DeclaredEffortsResolve(t: Table, files: seq<ProfileFile>, parse: Parser, unquote: MemberRemoval.Unquote, i: nat, p: Profile)
    requires DistinctNames(files, parse) && MoveAll(t, files, parse, unquote).Ok? && i < |files| && files[i].content.Some?
    requires parse(files[i].content.value) == Some(p) && p.name != "" && (p.level.Some? || p.overrides.Some?)
    ensures var u := MoveAll(t, files, parse, unquote).value;
      && (p.level.Some? && p.level.value != "" ==>
            EffortOf(u, if p.tierDefault != "" then p.tierDefault else "balanced", p.name) == p.level.value)
      && (p.overrides.Some? ==> forall tier :: tier in p.overrides.value ==> EffortOf(u, tier, p.name) == p.overrides.value[tier])
  {
    assert DeclaredIn(files[i], parse) == Some(p);
    MoveAllHonours(t, files, parse, unquote);
    hide MoveAll, DeclaredIn, Extends, Names, Resolve, EffortOf, DistinctNames;
    var u := MoveAll(t, files, parse, unquote).value;
    assert Honours(u, p);
    ResolveOrder(u, DispatchTier(p), p.name);
    if p.overrides.Some? {
      forall tier | tier in p.overrides.value ensures EffortOf(u, tier, p.name) == p.overrides.value[tier] {
        ResolveOrder(u, tier, p.name);
        assert tier in OverridesOf(p);
      }
    }
  }

  lemma NothingMoved(t: Table, names: set<string>)
    ensures Extends(t, t, names)
  {
  }

  lemma NamesSnoc(files: seq<ProfileFile>, parse: Parser)
    requires files != []
    ensures var m := |files| - 1;
      var last := DeclaredIn(files[m], parse);
      Names(files, parse) == Names(files[..m], parse) + if last.Some? then {last.value.name} else {}
  {
    hide DeclaredIn;
    var m := |files| - 1;
    var last := DeclaredIn(files[m], parse);
    var front := files[..m];
    forall n ensures n in Names(files, parse) <==> n in Names(front, parse) || (last.Some? && n == last.value.name) {
      if n in Names(files, parse) {
        var i :| 0 <= i < |files| && DeclaredIn(files[i], parse).Some? && DeclaredIn(files[i], parse).value.name == n;
        if i < m {
          assert front[i] == files[i];
        }
      }
      if n in Names(front, parse) {
        var i :| 0 <= i < m && DeclaredIn(front[i], parse).Some? && DeclaredIn(front[i], parse).value.name == n;
        assert files[i] == front[i];
      }
    }
  }

  /** An input for the other case: a second profile of the same name brings a level of its own, and the table forgets
      the override that the first one was promised. */
  lemma SharedNameUndoes(name: string)
    requires name != ""
    ensures var t := Table([], [], "", map[], map[], map[], map[]);
      var first, second := Profile(name, "", None, Some(map["deep" := "medium"])), Profile(name, "", Some("high"), None);
      var one := MoveOne(t, first);
      && one.Ok? && OverridesHold(one.value, first)
      && var two := MoveOne(one.value, second);
         two.Ok? && !OverridesHold(two.value, first)
  {
    var t := Table([], [], "", map[], map[], map[], map[]);
    var first, second := Profile(name, "", None, Some(map["deep" := "medium"])), Profile(name, "", Some("high"), None);
    assert [name][1..] == [];
    assert Resolve(t, "deep", [name]) == "medium";
    assert MoveOne(t, first) == Ok(t);
    var two := MoveOne(t, second).value;
    assert "deep" in OverridesOf(first) && Resolve(two, "deep", [name]) == "high";
  }
}
