/** The routing table and its edits as values (go/cmd/evolve/cli_routing_edit.go). RoutingTables holds the edits
    as they are made, in place on shared maps. */
module Routing {
  import opened Base

  datatype TierRule = TierRule(clis: seq<string>, effort: string, sharePct: int)

  datatype AgentRule = AgentRule(cli: seq<string>, model: string, effort: string, order: string,
                                 headroomPct: int, maxTier: string, maxEffort: string)

  const NO_TIER := TierRule([], "", 0)
  const NO_AGENT := AgentRule([], "", "", "", 0, "", "")

  datatype Table = Table(clis: seq<string>, default_: seq<string>, afterChain: string,
                         work: map<string, seq<string>>, agents: map<string, AgentRule>,
                         tiers: map<string, TierRule>, floors: map<string, seq<string>>)

  datatype Edit = Edit(key: string, values: seq<string>, model: string, effort: string,
                       maxTier: string, maxEffort: string, sharePct: int)

  const EFFORT_SUFFIX := ".effort"
  const SHARE_SUFFIX := ".share_pct"

  function DotIndex(s: string): (i: nat)
    ensures i <= |s|
  {
    if s == [] || s[0] == '.' then 0 else 1 + DotIndex(s[1..])
  }

  /** A key cut at its first dot. */
  datatype Key = Plain(word: string) | Scoped(group: string, name: string)

  function KeyOf(key: string): Key {
    var i := DotIndex(key);
    if i < |key| then Scoped(key[..i], key[i + 1..]) else Plain(key)
  }

  predicate HasSuffix(s: string, suffix: string) {
    |suffix| <= |s| && s[|s| - |suffix|..] == suffix
  }

  /** A name without the suffix it ends in. */
  function Trimmed(s: string, suffix: string): (base: string)
    requires HasSuffix(s, suffix)
    ensures s == base + suffix
  {
    s[..|s| - |suffix|]
  }

  function Or(a: string, b: string): string { if a == "" then b else a }

  function OrInt(a: int, b: int): int { if a == 0 then b else a }

  function At<V>(m: map<string, V>, k: string, zero: V): V { if k in m then m[k] else zero }

  // ---------------------------------------------------------------- set

  predicate SetsBounds(e: Edit) { e.maxTier != "" || e.maxEffort != "" }

  function TierRuleWith(rule: TierRule, e: Edit): TierRule {
    TierRule(if e.values == [] then rule.clis else e.values, Or(e.effort, rule.effort), OrInt(e.sharePct, rule.sharePct))
  }

  function AgentRuleWith(rule: AgentRule, e: Edit): AgentRule {
    var chained := if e.values == [] then rule else rule.(cli := e.values, model := e.model);
    chained.(effort := Or(e.effort, rule.effort), maxTier := Or(e.maxTier, rule.maxTier), maxEffort := Or(e.maxEffort, rule.maxEffort))
  }

  /** The checks that come before any change. */
  predicate Refused(e: Edit) {
    var key := KeyOf(e.key);
    var group := if key.Scoped? then key.group else key.word;
    || (e.values == [] && e.effort == "" && e.sharePct == 0 && !SetsBounds(e))
    || (e.sharePct != 0 && !(key.Scoped? && group == "tiers"))
    || (SetsBounds(e) && !(key.Scoped? && group == "agents"))
    || (e.model != "" && group != "agents")
    || (e.effort != "" && !(key.Scoped? && (group == "tiers" || group == "agents")))
    || (e.values == [] && e.model != "")
    || (e.key == "after_chain" && |e.values| > 1)
  }

  function SetKey(t: Table, e: Edit): Result<Table> {
    if Refused(e) then Err
    else
      match KeyOf(e.key)
      case Plain(word) =>
        if word == "clis" then Ok(t.(clis := e.values))
        else if word == "default" then Ok(t.(default_ := e.values))
        else if word == "after_chain" then Ok(t.(afterChain := e.values[0]))
        else Err
      case Scoped(group, name) =>
        if group == "tiers" then Ok(t.(tiers := t.tiers[name := TierRuleWith(At(t.tiers, name, NO_TIER), e)]))
        else if group == "work" then Ok(t.(work := t.work[name := e.values]))
        else if group == "agents" then Ok(t.(agents := t.agents[name := AgentRuleWith(At(t.agents, name, NO_AGENT), e)]))
        else if group == "floors" then Ok(t.(floors := t.floors[name := e.values]))
        else Err
  }

  // ---------------------------------------------------------------- unset

  predicate TierIsBare(rule: TierRule) { rule.clis == [] }

  predicate AgentIsBare(rule: AgentRule) { rule.cli == [] && rule.model == "" && rule.maxTier == "" && rule.maxEffort == "" }

  function UnsetEffort(t: Table, group: string, name: string): Result<Table> {
    if group == "tiers" then
      if name !in t.tiers then Err
      else if TierIsBare(t.tiers[name]) then Ok(t.(tiers := t.tiers - {name}))
      else Ok(t.(tiers := t.tiers[name := t.tiers[name].(effort := "")]))
    else if group == "agents" then
      if name !in t.agents then Err
      else if AgentIsBare(t.agents[name]) then Ok(t.(agents := t.agents - {name}))
      else Ok(t.(agents := t.agents[name := t.agents[name].(effort := "")]))
    else Err
  }

  function UnsetShare(t: Table, group: string, name: string): Result<Table> {
    if group != "tiers" || name !in t.tiers then Err
    else Ok(t.(tiers := t.tiers[name := t.tiers[name].(sharePct := 0)]))
  }

  function UnsetKey(t: Table, key: string): Result<Table> {
    match KeyOf(key)
    case Plain(word) =>
      if word == "clis" then Ok(t.(clis := []))
      else if word == "default" then Ok(t.(default_ := []))
      else if word == "after_chain" then Ok(t.(afterChain := ""))
      else if word == "floors" then Ok(t.(floors := map[]))
      else Err
    case Scoped(group, name) =>
      if HasSuffix(name, EFFORT_SUFFIX) then UnsetEffort(t, group, Trimmed(name, EFFORT_SUFFIX))
      else if HasSuffix(name, SHARE_SUFFIX) then UnsetShare(t, group, Trimmed(name, SHARE_SUFFIX))
      else if group == "tiers" then Ok(t.(tiers := t.tiers - {name}))
      else if group == "work" then Ok(t.(work := t.work - {name}))
      else if group == "agents" then Ok(t.(agents := t.agents - {name}))
      else if group == "floors" then
        if name !in t.floors then Err else Ok(t.(floors := t.floors - {name}))
      else Err
  }

  // ---------------------------------------------------------------- what an edit leaves alone

  /** One place of the table, and what is there. */
  datatype Slot = CLIs | Default | AfterChain | Tier(name: string) | Work(name: string) | Agent(name: string) | Floor(name: string)

  datatype Content = Nothing | Words(words: seq<string>) | Word(word: string) | ATier(tier: TierRule) | AnAgent(agent: AgentRule)

  function Lookup(t: Table, s: Slot): Content {
    match s
    case CLIs => Words(t.clis)
    case Default => Words(t.default_)
    case AfterChain => Word(t.afterChain)
    case Tier(n) => if n in t.tiers then ATier(t.tiers[n]) else Nothing
    case Work(n) => if n in t.work then Words(t.work[n]) else Nothing
    case Agent(n) => if n in t.agents then AnAgent(t.agents[n]) else Nothing
    case Floor(n) => if n in t.floors then Words(t.floors[n]) else Nothing
  }

  /** The table is what its slots hold. */
  lemma SlotsDetermine(a: Table, b: Table)
    requires forall s :: Lookup(a, s) == Lookup(b, s)
    ensures a == b
  {
    assert Lookup(a, CLIs) == Lookup(b, CLIs) && Lookup(a, Default) == Lookup(b, Default) && Lookup(a, AfterChain) == Lookup(b, AfterChain);
    forall n
      ensures (n in a.tiers <==> n in b.tiers) && (n in a.tiers ==> a.tiers[n] == b.tiers[n])
    { assert Lookup(a, Tier(n)) == Lookup(b, Tier(n)); }
    assert a.tiers == b.tiers;
    forall n
      ensures (n in a.work <==> n in b.work) && (n in a.work ==> a.work[n] == b.work[n])
    { assert Lookup(a, Work(n)) == Lookup(b, Work(n)); }
    assert a.work == b.work;
    forall n
      ensures (n in a.agents <==> n in b.agents) && (n in a.agents ==> a.agents[n] == b.agents[n])
    { assert Lookup(a, Agent(n)) == Lookup(b, Agent(n)); }
    assert a.agents == b.agents;
    forall n
      ensures (n in a.floors <==> n in b.floors) && (n in a.floors ==> a.floors[n] == b.floors[n])
    { assert Lookup(a, Floor(n)) == Lookup(b, Floor(n)); }
    assert a.floors == b.floors;
  }

  /** The slot a key names, its effort or share suffix aside. */
  function SlotOf(key: string, unset: bool): Option<Slot> {
    match KeyOf(key)
    case Plain(word) =>
      if word == "clis" then Some(CLIs) else if word == "default" then Some(Default)
      else if word == "after_chain" then Some(AfterChain) else None
    case Scoped(group, name) =>
      var base := if unset && HasSuffix(name, EFFORT_SUFFIX) then Trimmed(name, EFFORT_SUFFIX)
                  else if unset && HasSuffix(name, SHARE_SUFFIX) then Trimmed(name, SHARE_SUFFIX)
                  else name;
      if group == "tiers" then Some(Tier(base)) else if group == "work" then Some(Work(base))
      else if group == "agents" then Some(Agent(base)) else if group == "floors" then Some(Floor(base))
      else None
  }

  /** An edit changes the slot its key names and no other; unsetting all floors is the one exception. */
  lemma EditsOneSlot(t: Table, e: Edit, s: Slot)
    requires SlotOf(e.key, false) != Some(s)
    ensures SetKey(t, e).Ok? ==> Lookup(SetKey(t, e).value, s) == Lookup(t, s)
  {
    hide KeyOf, Refused, TierRuleWith, AgentRuleWith, HasSuffix, At;
    match KeyOf(e.key)
    case Plain(_) =>
    case Scoped(group, _) =>
      if group == "tiers" {
      } else if group == "work" {
      } else if group == "agents" {
      }
  }

  lemma UnsetsOneSlot(t: Table, key: string, s: Slot)
    requires SlotOf(key, true) != Some(s) && !(KeyOf(key) == Plain("floors") && s.Floor?)
    ensures UnsetKey(t, key).Ok? ==> Lookup(UnsetKey(t, key).value, s) == Lookup(t, s)
  {
    hide KeyOf, HasSuffix, UnsetEffort, UnsetShare;
    match KeyOf(key)
    case Plain(_) =>
    case Scoped(group, name) =>
      if HasSuffix(name, EFFORT_SUFFIX) {
        UnsetEffortOnly(t, group, Trimmed(name, EFFORT_SUFFIX), s);
      } else if HasSuffix(name, SHARE_SUFFIX) {
        UnsetShareOnly(t, group, Trimmed(name, SHARE_SUFFIX), s);
      } else if group == "tiers" {
      } else if group == "work" {
      } else if group == "agents" {
      }
  }

  lemma UnsetEffortOnly(t: Table, group: string, name: string, s: Slot)
    requires group == "tiers" ==> s != Tier(name)
    requires group == "agents" ==> s != Agent(name)
    ensures UnsetEffort(t, group, name).Ok? ==> Lookup(UnsetEffort(t, group, name).value, s) == Lookup(t, s)
  {
  }

  lemma UnsetShareOnly(t: Table, group: string, name: string, s: Slot)
    requires group == "tiers" ==> s != Tier(name)
    ensures UnsetShare(t, group, name).Ok? ==> Lookup(UnsetShare(t, group, name).value, s) == Lookup(t, s)
  {
  }

  /** What the edited entry holds: the earlier value of whatever the edit does not give, and nothing if there was no
      entry. A new chain of an agent takes the earlier model with it. */
  lemma EditedSlot(t: Table, e: Edit)
    requires SetKey(t, e).Ok? && KeyOf(e.key).Scoped?
    ensures var name, after := KeyOf(e.key).name, SetKey(t, e).value;
      match KeyOf(e.key).group
      case "tiers" =>
        && name in after.tiers
        && var was, now := if name in t.tiers then t.tiers[name] else TierRule([], "", 0), after.tiers[name];
           && (e.values == [] ==> now.clis == was.clis) && (e.effort == "" ==> now.effort == was.effort)
           && (e.sharePct == 0 ==> now.sharePct == was.sharePct) && now != NO_TIER
      case "agents" =>
        && name in after.agents
        && var was := if name in t.agents then t.agents[name] else AgentRule([], "", "", "", 0, "", "");
           var now := after.agents[name];
           && (if e.values == [] then now.cli == was.cli && now.model == was.model else now.cli == e.values && now.model == e.model)
           && (e.effort == "" ==> now.effort == was.effort)
           && (e.maxTier == "" ==> now.maxTier == was.maxTier) && (e.maxEffort == "" ==> now.maxEffort == was.maxEffort)
           && now.order == was.order && now.headroomPct == was.headroomPct && now != NO_AGENT
      case "work" => name in after.work && after.work[name] == e.values != []
      case "floors" => name in after.floors && after.floors[name] == e.values != []
      case _ => false
  {
    hide KeyOf;
  }

  /** The chain that a slot holds. */
  function ChainOf(c: Content): seq<string> {
    match c
    case Nothing => []
    case Words(words) => words
    case Word(word) => [word]
    case ATier(tier) => tier.clis
    case AnAgent(agent) => agent.cli
  }

  /** An accepted edit ignores none of its flags: each value that is given shows in the slot that the key names. */
  lemma NoFlagIsIgnored(t: Table, e: Edit)
    requires SetKey(t, e).Ok?
    ensures SlotOf(e.key, false).Some?
    ensures var now := Lookup(SetKey(t, e).value, SlotOf(e.key, false).value);
      && (e.values != [] ==> ChainOf(now) == e.values)
      && (e.effort != "" ==> (now.ATier? && now.tier.effort == e.effort) || (now.AnAgent? && now.agent.effort == e.effort))
      && (e.sharePct != 0 ==> now.ATier? && now.tier.sharePct == e.sharePct)
      && (e.model != "" ==> now.AnAgent? && now.agent.model == e.model && e.values != [])
      && (e.maxTier != "" ==> now.AnAgent? && now.agent.maxTier == e.maxTier)
      && (e.maxEffort != "" ==> now.AnAgent? && now.agent.maxEffort == e.maxEffort)
  {
    PlainIsKey(e.key);
    hide KeyOf, HasSuffix;
    match KeyOf(e.key)
    case Plain(_) =>
    case Scoped(group, _) =>
      if group == "tiers" {
      } else if group == "work" {
      } else if group == "agents" {
      }
  }

  /** An edit is accepted exactly when its key names a slot, it gives something, and each flag that it gives has a
      place in the slot: a share in a tier, a bound in an agent, an effort in either, a model with an agent's chain, and
      behind the chains one word. */
  lemma SetAccepts(t: Table, e: Edit)
    ensures SetKey(t, e).Ok? <==>
      && SlotOf(e.key, false).Some?
      && var slot := SlotOf(e.key, false).value;
         && (e.values != [] || e.effort != "" || e.sharePct != 0 || e.maxTier != "" || e.maxEffort != "")
         && (e.sharePct != 0 ==> slot.Tier?)
         && (e.maxTier != "" || e.maxEffort != "" ==> slot.Agent?)
         && (e.effort != "" ==> slot.Tier? || slot.Agent?)
         && (e.model != "" ==> slot.Agent? && e.values != [])
         && (slot.AfterChain? ==> |e.values| == 1)
  {
    PlainIsKey(e.key);
    hide HasSuffix, TierRuleWith, AgentRuleWith, At;
    ScopedHasDot(e.key);
    hide KeyOf;
    match KeyOf(e.key)
    case Plain(_) =>
    case Scoped(group, _) =>
      if group == "tiers" {
      } else if group == "work" {
      } else if group == "agents" {
      }
  }

  /** An unset is accepted exactly when its key names something that can be cleared. */
  lemma UnsetAccepts(t: Table, key: string)
    ensures UnsetKey(t, key).Ok? <==>
      match KeyOf(key)
      case Plain(word) => word in {"clis", "default", "after_chain", "floors"}
      case Scoped(group, name) =>
        if HasSuffix(name, ".effort") then
          var base := Trimmed(name, ".effort"); (group == "tiers" && base in t.tiers) || (group == "agents" && base in t.agents)
        else if HasSuffix(name, ".share_pct") then group == "tiers" && Trimmed(name, ".share_pct") in t.tiers
        else group in {"tiers", "work", "agents"} || (group == "floors" && name in t.floors)
  {
    hide KeyOf, HasSuffix;
  }

  /** A suffix is what a name ends in, and what is in front of it is the rest. */
  lemma SuffixMeans(s: string, suffix: string)
    ensures HasSuffix(s, suffix) <==> exists base: string :: s == base + suffix
    ensures forall base: string :: s == base + suffix ==> HasSuffix(s, suffix) && Trimmed(s, suffix) == base
  {
    if HasSuffix(s, suffix) {
      assert s == s[..|s| - |suffix|] + suffix;
    }
    forall base: string | s == base + suffix ensures HasSuffix(s, suffix) && Trimmed(s, suffix) == base {
      assert s[|base|..] == suffix && s[..|base|] == base;
    }
  }

  /** A key is scoped exactly when it has a dot; the group is what is in front of the first one. */
  lemma KeyForms(key: string, group: string, name: string)
    ensures KeyOf(key) == Scoped(group, name) <==>
      key == group + "." + name && forall i :: 0 <= i < |group| ==> group[i] != '.'
    ensures KeyOf(key).Plain? <==> forall i :: 0 <= i < |key| ==> key[i] != '.'
  {
    DotStands(key);
    var i := DotIndex(key);
    assert i < |key| ==> key == key[..i] + "." + key[i + 1..];
    if key == group + "." + name && forall j :: 0 <= j < |group| ==> group[j] != '.' {
      FirstDot(group, name);
    }
  }

  lemma {:induction false} DotStands(s: string)
    ensures var i := DotIndex(s);
      (forall j :: 0 <= j < i ==> s[j] != '.') && (i < |s| ==> s[i] == '.')
  {
    if s != [] && s[0] != '.' {
      DotStands(s[1..]);
    }
  }

  lemma ScopedHasDot(key: string)
    ensures KeyOf(key).Scoped? ==> key != "after_chain"
  {
    DotStands(key);
  }

  lemma PlainIsKey(key: string)
    ensures KeyOf(key).Plain? ==> KeyOf(key).word == key
  {
  }

  /** What an accepted unset leaves of the entry its key names: nothing; or, for an effort or share key, the entry
      without that one value. A bare entry goes with its effort. */
  lemma UnsetClears(t: Table, key: string)
    requires UnsetKey(t, key).Ok? && KeyOf(key).Scoped?
    ensures SlotOf(key, true).Some?
    ensures var name, slot := KeyOf(key).name, SlotOf(key, true).value;
      var was, now := Lookup(t, slot), Lookup(UnsetKey(t, key).value, slot);
      if HasSuffix(name, ".effort") then
        || (was.ATier? && now == (if was.tier.clis == [] then Nothing else ATier(was.tier.(effort := ""))))
        || (was.AnAgent? && now == if was.agent.cli == [] && was.agent.model == "" && was.agent.maxTier == "" && was.agent.maxEffort == "" then Nothing else AnAgent(was.agent.(effort := "")))
      else if HasSuffix(name, ".share_pct") then was.ATier? && now == ATier(was.tier.(sharePct := 0))
      else now == Nothing && (slot.Floor? ==> was != Nothing)
  {
    hide KeyOf, HasSuffix;
    var group := KeyOf(key).group;
    if group == "tiers" {
    } else if group == "agents" {
    } else if group == "work" {
    }
  }

  /** A key without a dot clears a whole part of the table and nothing else. */
  lemma UnsetClearsWhole(t: Table, key: string, s: Slot)
    requires key in {"clis", "default", "after_chain", "floors"}
    ensures UnsetKey(t, key).Ok?
    ensures var now := Lookup(UnsetKey(t, key).value, s);
      if (key == "clis" && s.CLIs?) || (key == "default" && s.Default?) then now == Words([])
      else if key == "after_chain" && s.AfterChain? then now == Word("")
      else if key == "floors" && s.Floor? then now == Nothing
      else now == Lookup(t, s)
  {
    hide KeyOf, HasSuffix, UnsetEffort, UnsetShare;
    PlainWords(key);
  }

  lemma PlainWords(key: string)
    requires key in {"clis", "default", "after_chain", "floors"}
    ensures KeyOf(key) == Plain(key)
  {
    hide KeyOf;
    NoDot("clis");
    NoDot("default");
    NoDot("after_chain");
    NoDot("floors");
  }

  lemma NoDot(word: string)
    requires forall i :: 0 <= i < |word| ==> word[i] != '.'
    ensures KeyOf(word) == Plain(word)
  {
    KeyForms(word, "", "");
  }

  lemma RulesTwice(e: Edit, tier: TierRule, agent: AgentRule)
    ensures TierRuleWith(TierRuleWith(tier, e), e) == TierRuleWith(tier, e)
    ensures AgentRuleWith(AgentRuleWith(agent, e), e) == AgentRuleWith(agent, e)
  {
  }

  /** Making the same edit twice is making it once. */
  lemma EditTwice(t: Table, e: Edit)
    requires SetKey(t, e).Ok?
    ensures SetKey(SetKey(t, e).value, e) == SetKey(t, e)
  {
    hide KeyOf, Refused, TierRuleWith, AgentRuleWith;
    match KeyOf(e.key)
    case Plain(_) =>
    case Scoped(group, name) =>
      RulesTwice(e, At(t.tiers, name, NO_TIER), At(t.agents, name, NO_AGENT));
      var once := SetKey(t, e).value;
      var twice := SetKey(once, e).value;
      if group == "tiers" {
        assert twice.tiers == once.tiers;
      } else if group == "work" {
        assert twice.work == once.work;
      } else if group == "agents" {
        assert twice.agents == once.agents;
      } else {
        assert twice.floors == once.floors;
      }
  }

  // ---------------------------------------------------------------- set, then unset

  /** Unsetting what was set on an absent entry gives back the table exactly when the name of the entry does
      not end like an effort or share key. */
  lemma UnsetUndoesSet(t: Table, e: Edit)
    requires KeyOf(e.key).Scoped? && SetKey(t, e).Ok? && Lookup(t, SlotOf(e.key, false).value) == Nothing
    ensures var name := KeyOf(e.key).name;
      UnsetKey(SetKey(t, e).value, e.key) == Ok(t) <==> !HasSuffix(name, EFFORT_SUFFIX) && !HasSuffix(name, SHARE_SUFFIX)
  {
    hide KeyOf, HasSuffix, Refused, TierRuleWith, AgentRuleWith, At, UnsetEffort, UnsetShare;
    var Scoped(group, name) := KeyOf(e.key);
    var after := SetKey(t, e).value;
    var slot := SlotOf(e.key, false).value;
    assert Lookup(after, slot) != Nothing;
    if HasSuffix(name, EFFORT_SUFFIX) || HasSuffix(name, SHARE_SUFFIX) {
      assert SlotOf(e.key, true) != Some(slot) by {
        var base := if HasSuffix(name, EFFORT_SUFFIX) then Trimmed(name, EFFORT_SUFFIX) else Trimmed(name, SHARE_SUFFIX);
        assert |base| < |name|;
      }
      UnsetsOneSlot(after, e.key, slot);
    } else {
      forall s | s != slot ensures Lookup(after, s) == Lookup(t, s) {
        EditsOneSlot(t, e, s);
      }
      RemovesEntry(t, after, e.key, slot);
    }
  }

  lemma RemovesEntry(t: Table, after: Table, key: string, slot: Slot)
    requires KeyOf(key).Scoped? && !HasSuffix(KeyOf(key).name, EFFORT_SUFFIX) && !HasSuffix(KeyOf(key).name, SHARE_SUFFIX)
    requires SlotOf(key, false) == Some(slot) && Lookup(t, slot) == Nothing && Lookup(after, slot) != Nothing
    requires forall s :: s != slot ==> Lookup(after, s) == Lookup(t, s)
    ensures UnsetKey(after, key) == Ok(t)
  {
    hide KeyOf, HasSuffix, UnsetEffort, UnsetShare;
    var back := UnsetKey(after, key).value;
    forall s ensures Lookup(back, s) == Lookup(t, s) {
      if s != slot {
        UnsetsOneSlot(after, key, s);
      }
    }
    SlotsDetermine(back, t);
  }

  /** A key for the effort of a tier or an agent. */
  lemma EffortKey(group: string, name: string)
    requires forall i :: 0 <= i < |group| ==> group[i] != '.'
    ensures KeyOf(group + "." + name) == Scoped(group, name)
    ensures var key := group + "." + name + EFFORT_SUFFIX;
      && KeyOf(key) == Scoped(group, name + EFFORT_SUFFIX)
      && HasSuffix(name + EFFORT_SUFFIX, EFFORT_SUFFIX)
      && Trimmed(name + EFFORT_SUFFIX, EFFORT_SUFFIX) == name
  {
    FirstDot(group, name);
    assert group + "." + name + EFFORT_SUFFIX == group + "." + (name + EFFORT_SUFFIX);
    FirstDot(group, name + EFFORT_SUFFIX);
  }

  lemma {:induction false} FirstDot(group: string, name: string)
    requires forall i :: 0 <= i < |group| ==> group[i] != '.'
    ensures DotIndex(group + "." + name) == |group|
    ensures KeyOf(group + "." + name) == Scoped(group, name)
  {
    var s := group + "." + name;
    if group != [] {
      assert s[1..] == group[1..] + "." + name;
      FirstDot(group[1..], name);
    }
    assert s[..|group|] == group && s[|group| + 1..] == name;
  }

  /** Setting the effort of a tier and unsetting it again gives back the table exactly when the tier was absent,
      or had CLIs and no effort. A tier that holds only a share is deleted with it. */
  lemma TierEffortRoundTrip(t: Table, name: string, effort: string)
    requires effort != ""
    ensures var set_ := SetKey(t, Edit("tiers" + "." + name, [], "", effort, "", "", 0));
      && set_.Ok?
      && (UnsetKey(set_.value, "tiers" + "." + name + ".effort") == Ok(t) <==>
            name !in t.tiers || (t.tiers[name].clis != [] && t.tiers[name].effort == ""))
  {
    var group := "tiers";
    EffortKey(group, name);
    hide HasSuffix, KeyOf;
    var e := Edit(group + "." + name, [], "", effort, "", "", 0);
    assert !Refused(e);
    var after := SetKey(t, e).value;
    var back := UnsetKey(after, group + "." + name + EFFORT_SUFFIX);
    assert back == UnsetEffort(after, group, name);
    if name !in t.tiers {
      assert back.value.tiers == t.tiers;
    } else if t.tiers[name].clis != [] && t.tiers[name].effort == "" {
      assert back.value.tiers == t.tiers;
    } else {
      assert name in back.value.tiers ==> back.value.tiers[name] != t.tiers[name];
    }
  }

  /** The same for an agent: it must have been absent, or hold a CLI, a model or a bound and no effort. An agent
      that holds only an order or a headroom loses it. */
  lemma AgentEffortRoundTrip(t: Table, name: string, effort: string)
    requires effort != ""
    ensures var set_ := SetKey(t, Edit("agents" + "." + name, [], "", effort, "", "", 0));
      && set_.Ok?
      && (UnsetKey(set_.value, "agents" + "." + name + ".effort") == Ok(t) <==>
            name !in t.agents || (!AgentIsBare(t.agents[name]) && t.agents[name].effort == ""))
  {
    var group := "agents";
    EffortKey(group, name);
    hide HasSuffix, KeyOf;
    var e := Edit(group + "." + name, [], "", effort, "", "", 0);
    assert !Refused(e);
    var after := SetKey(t, e).value;
    var back := UnsetKey(after, group + "." + name + EFFORT_SUFFIX);
    assert back == UnsetEffort(after, group, name);
    if name !in t.agents {
      assert back.value.agents == t.agents;
    } else if !AgentIsBare(t.agents[name]) && t.agents[name].effort == "" {
      assert back.value.agents == t.agents;
    } else {
      assert name in back.value.agents ==> back.value.agents[name] != t.agents[name];
    }
  }

  // ---------------------------------------------------------------- tables that can be in the file

  /** Which fields of a rule go together: the candidate table is compiled before it is written, and refused else. */
  predicate TierCompiles(rule: TierRule) { rule.clis == [] ==> rule.sharePct == 0 && rule.effort != "" }

  predicate AgentCompiles(rule: AgentRule) {
    && (rule.cli == [] ==> rule.effort != "" || rule.maxTier != "" || rule.maxEffort != "")
    && (rule.headroomPct != 0 ==> rule.order != "")
    && (rule.order != "" ==> rule.cli != [])
  }

  /** For a tier that can be in the file: the set is not refused for its shape, and the round trip gives back the table
      exactly when the tier had no effort. */
  lemma CompiledTierRoundTrip(t: Table, name: string, effort: string)
    requires effort != "" && (name in t.tiers ==> TierCompiles(t.tiers[name]))
    ensures var set_ := SetKey(t, Edit("tiers" + "." + name, [], "", effort, "", "", 0));
      && set_.Ok? && name in set_.value.tiers && TierCompiles(set_.value.tiers[name])
      && (UnsetKey(set_.value, "tiers" + "." + name + ".effort") == Ok(t) <==> At(t.tiers, name, NO_TIER).effort == "")
  {
    TierEffortRoundTrip(t, name, effort);
    EffortKey("tiers", name);
    hide KeyOf, UnsetKey;
  }

  /** The same for an agent. */
  lemma CompiledAgentRoundTrip(t: Table, name: string, effort: string)
    requires effort != "" && (name in t.agents ==> AgentCompiles(t.agents[name]))
    ensures var set_ := SetKey(t, Edit("agents" + "." + name, [], "", effort, "", "", 0));
      && set_.Ok? && name in set_.value.agents && AgentCompiles(set_.value.agents[name])
      && (UnsetKey(set_.value, "agents" + "." + name + ".effort") == Ok(t) <==> At(t.agents, name, NO_AGENT).effort == "")
  {
    AgentEffortRoundTrip(t, name, effort);
    EffortKey("agents", name);
    hide KeyOf, UnsetKey;
  }

  /** A tier with a CLI and an effort: set another effort and unset it, and the first effort is gone too. */
  lemma EarlierEffortIsLost(name: string, cli: string)
    ensures var t := Table([cli], [], "", map[], map[], map[name := TierRule([cli], "low", 0)], map[]);
      var set_ := SetKey(t, Edit("tiers" + "." + name, [], "", "high", "", "", 0));
      && TierCompiles(t.tiers[name])
      && set_.Ok? && name in set_.value.tiers && TierCompiles(set_.value.tiers[name])
      && UnsetKey(set_.value, "tiers" + "." + name + ".effort") == Ok(t.(tiers := map[name := TierRule([cli], "", 0)]))
  {
    EffortKey("tiers", name);
    hide KeyOf, HasSuffix;
    var t := Table([cli], [], "", map[], map[], map[name := TierRule([cli], "low", 0)], map[]);
    var set_ := SetKey(t, Edit("tiers" + "." + name, [], "", "high", "", "", 0)).value;
    assert set_.tiers == map[name := TierRule([cli], "high", 0)];
    assert set_.tiers[name := TierRule([cli], "", 0)] == map[name := TierRule([cli], "", 0)];
  }

  /** In memory an agent that reserves headroom and nothing else is gone after its effort was set and unset; but the
      table with the effort is refused, so no such round trip is made on the file. */
  lemma HeadroomIsLost(name: string)
    ensures var t := Table([], [], "", map[], map[name := NO_AGENT.(headroomPct := 20)], map[], map[]);
      var set_ := SetKey(t, Edit("agents" + "." + name, [], "", "high", "", "", 0));
      && set_.Ok? && name in set_.value.agents && !AgentCompiles(set_.value.agents[name])
      && var back := UnsetKey(set_.value, "agents" + "." + name + ".effort");
         back.Ok? && name !in back.value.agents
  {
    var t := Table([], [], "", map[], map[name := NO_AGENT.(headroomPct := 20)], map[], map[]);
    AgentEffortRoundTrip(t, name, "high");
    var group := "agents";
    EffortKey(group, name);
    hide HasSuffix, KeyOf;
    var e := Edit(group + "." + name, [], "", "high", "", "", 0);
    assert !Refused(e);
  }

  /** The same for a tier that has only a share of the traffic. */
  lemma ShareIsLost(name: string)
    ensures var t := Table([], [], "", map[], map[], map[name := NO_TIER.(sharePct := 30)], map[]);
      var set_ := SetKey(t, Edit("tiers" + "." + name, [], "", "high", "", "", 0));
      && set_.Ok? && name in set_.value.tiers && !TierCompiles(set_.value.tiers[name])
      && var back := UnsetKey(set_.value, "tiers" + "." + name + ".effort");
         back.Ok? && name !in back.value.tiers
  {
    var group := "tiers";
    EffortKey(group, name);
    hide HasSuffix, KeyOf;
    var e := Edit(group + "." + name, [], "", "high", "", "", 0);
    assert !Refused(e);
  }
}
