/** Moving the legacy routing keys of a policy file into the routing table (go/cmd/evolve/cli_routing_edit.go). */
module Migration {
  import opened Base
  import opened Routing
  import opened RoutingTables

  datatype Json = Null | Bool(flag: bool) | Str(text: string) | Strings(list: seq<string>) | Other(raw: string)

  type Object = map<string, Json>

  datatype Pin = Pin(cli: string, model: string)

  /** The blocks of a policy file that migration reads, and the file's routing table. */
  datatype Policy = Policy(pins: map<string, Pin>, workflow: Option<Object>, router: Option<Object>, routing: Table)

  const FALLBACK := "universal_fallback"
  const EXCLUDE := "universal_fallback_exclude"
  const STOP := "stop"
  const ROUTER := "router"

  const TAIL_KEYS: set<string> := {FALLBACK, EXCLUDE}
  const ROUTER_KEYS: set<string> := {"cli", "model", "plan_model", "propose_model"}

  function StringAt(o: Object, key: string): string {
    if key in o && o[key].Str? then o[key].text else ""
  }

  function BoolAt(o: Object, key: string): Option<bool> {
    if key in o && o[key].Bool? then Some(o[key].flag) else None
  }

  function StringsAt(o: Object, key: string): Option<seq<string>> {
    if key in o && o[key].Strings? then Some(o[key].list) else None
  }

  /** What is left of a block; a block that would be empty is removed. */
  function BlockWithout(o: Object, keys: set<string>): Option<Object> {
    if o - keys == map[] then None else Some(o - keys)
  }

  /** The blocks to replace in the file. A value of `Some(None)` removes the block. */
  datatype Patch = Patch(dropPins: bool, workflow: Option<Option<Object>>, router: Option<Option<Object>>, routing: Table)

  function Patched(p: Policy, patch: Patch): Policy {
    Policy(if patch.dropPins then map[] else p.pins,
           if patch.workflow.Some? then patch.workflow.value else p.workflow,
           if patch.router.Some? then patch.router.value else p.router,
           patch.routing)
  }

  // ---------------------------------------------------------------- what migration means

  function PinRule(pin: Pin): AgentRule { NO_AGENT.(cli := [pin.cli], model := pin.model) }

  function PinRules(pins: map<string, Pin>): map<string, AgentRule> {
    map phase | phase in pins :: PinRule(pins[phase])
  }

  predicate HasTail(p: Policy) {
    p.workflow.Some? && (BoolAt(p.workflow.value, FALLBACK).Some? || StringsAt(p.workflow.value, EXCLUDE).Some?)
  }

  predicate TailExcludes(p: Policy) {
    && p.workflow.Some?
    && var excluded := StringsAt(p.workflow.value, EXCLUDE);
       excluded.Some? && excluded.value != []
  }

  predicate TailOff(p: Policy) { p.workflow.Some? && BoolAt(p.workflow.value, FALLBACK) == Some(false) }

  predicate HasRouter(p: Policy) {
    && p.router.Some?
    && exists key :: key in ROUTER_KEYS && StringAt(p.router.value, key) != ""
  }

  /** The tiers of the two kinds of router decision, each with its own key and a common default. */
  function PlanTier(r: Object): string { Or(StringAt(r, "plan_model"), StringAt(r, "model")) }

  function ProposeTier(r: Object): string { Or(StringAt(r, "propose_model"), StringAt(r, "model")) }

  function RouterRule(r: Object): AgentRule { NO_AGENT.(cli := [StringAt(r, "cli")], model := PlanTier(r)) }

  predicate PinsRefused(p: Policy, t: Table) {
    exists phase :: phase in p.pins && (p.pins[phase].cli == "" || phase in t.agents)
  }

  predicate RouterRefused(p: Policy, t: Table) {
    && HasRouter(p)
    && (|| PlanTier(p.router.value) != ProposeTier(p.router.value)
        || StringAt(p.router.value, "cli") == ""
        || ROUTER in t.agents
        || ROUTER in p.pins)
  }

  predicate MigrationRefused(p: Policy, t: Table) {
    PinsRefused(p, t) || (HasTail(p) && TailExcludes(p)) || RouterRefused(p, t)
  }

  function WithPins(p: Policy, t: Table): Table { t.(agents := t.agents + PinRules(p.pins)) }

  function WithTail(p: Policy, t: Table): Table { if TailOff(p) then t.(afterChain := STOP) else t }

  function WithRouter(p: Policy, t: Table): Table {
    if HasRouter(p) then t.(agents := t.agents[ROUTER := RouterRule(p.router.value)]) else t
  }

  function Migrated(p: Policy, t: Table): Table { WithRouter(p, WithTail(p, WithPins(p, t))) }

  function MigrationPatch(p: Policy, t: Table): Patch {
    Patch(p.pins != map[],
          if HasTail(p) then Some(BlockWithout(p.workflow.value, TAIL_KEYS)) else None,
          if HasRouter(p) then Some(BlockWithout(p.router.value, ROUTER_KEYS)) else None,
          Migrated(p, t))
  }

  // ---------------------------------------------------------------- the steps

  /** Adds a rule for each pin, until one is refused. */
  method AddPins(p: Policy, b: Block) returns (ok: bool, r: Block)
    requires Apart(b)
    modifies Ref(b.agents)
    ensures Apart(r) && fresh(Maps(r) - Maps(b))
    ensures ok == !PinsRefused(p, old(View(b)))
    ensures ok ==> View(r) == WithPins(p, old(View(b)))
  {
    hide PinRules, PinRule, PinsRefused, PinsFree;
    ghost var t := View(b);
    var todo := p.pins.Keys;
    r := b;
    NoPinsYet(p.pins, t.agents);
    while todo != {}
      invariant todo <= p.pins.Keys && PinsFree(p.pins, t.agents, todo)
      invariant Apart(r) && r == b.(agents := r.agents) && (r.agents == b.agents || fresh(Ref(r.agents)))
      invariant View(r) == t.(agents := t.agents + PinRules(p.pins - todo))
      decreases todo
    {
      var phase :| phase in todo;
      OnePinMore(p, t, todo, phase);
      if p.pins[phase].cli == "" {
        return false, r;
      }
      if phase in Entries(r.agents) {
        return false, r;
      }
      r := PutAgent(r, phase, PinRule(p.pins[phase]));
      todo := todo - {phase};
    }
    AllPinsFree(p, t);
    ok := true;
  }

  /** The migration under way: a clone of the caller's block, and the patch so far. */
  class Moves {
    const policy: Policy
    var block: Block
    var dropPins: bool
    var workflow: Option<Option<Object>>
    var router: Option<Option<Object>>

    ghost predicate Valid()
      reads this, Maps(block)
    {
      Apart(block) && this !in Maps(block)
    }

    constructor (policy: Policy, block: Block)
      requires Apart(block)
      ensures Valid() && this.policy == policy && this.block == block
      ensures !dropPins && workflow == None && router == None
    {
      this.policy := policy;
      this.block := block;
      dropPins := false;
      workflow := None;
      router := None;
    }

    method MovePins() returns (ok: bool)
      requires Valid()
      modifies this`block, this`dropPins, Maps(block)
      ensures Valid() && fresh(Maps(block) - old(Maps(block)))
      ensures ok == !PinsRefused(policy, old(View(block)))
      ensures ok ==> View(block) == WithPins(policy, old(View(block)))
      ensures ok ==> dropPins == (old(dropPins) || policy.pins != map[])
    {
      ok, block := AddPins(policy, block);
      if ok && policy.pins != map[] {
        dropPins := true;
      }
    }

    method MoveTail() returns (ok: bool)
      requires Valid()
      modifies this`block, this`workflow
      ensures Valid() && Maps(block) == old(Maps(block))
      ensures ok == !(HasTail(policy) && TailExcludes(policy))
      ensures ok ==> View(block) == WithTail(policy, old(View(block)))
      ensures ok ==> workflow == if HasTail(policy) then Some(BlockWithout(policy.workflow.value, TAIL_KEYS)) else old(workflow)
    {
      if policy.workflow == None {
        return true;
      }
      var wf := policy.workflow.value;
      var fallback, exclude := BoolAt(wf, FALLBACK), StringsAt(wf, EXCLUDE);
      if fallback == None && exclude == None {
        return true;
      }
      if exclude.Some? && exclude.value != [] {
        return false;
      }
      if fallback == Some(false) {
        block := block.(afterChain := STOP);
      }
      workflow := Some(BlockWithout(wf, TAIL_KEYS));
      ok := true;
    }

    method MoveRouterKeys() returns (ok: bool)
      requires Valid()
      modifies this`block, this`router, Maps(block)
      ensures Valid() && fresh(Maps(block) - old(Maps(block)))
      ensures ok == !(HasRouter(policy) && (|| PlanTier(policy.router.value) != ProposeTier(policy.router.value)
                                            || StringAt(policy.router.value, "cli") == ""
                                            || ROUTER in old(Entries(block.agents))))
      ensures ok ==> View(block) == WithRouter(policy, old(View(block)))
      ensures ok ==> router == if HasRouter(policy) then Some(BlockWithout(policy.router.value, ROUTER_KEYS)) else old(router)
    {
      if policy.router == None {
        return true;
      }
      var rt := policy.router.value;
      RouterKeyByKey(policy);
      if StringAt(rt, "cli") == "" && StringAt(rt, "model") == "" && StringAt(rt, "plan_model") == ""
        && StringAt(rt, "propose_model") == "" {
        return true;
      }
      if PlanTier(rt) != ProposeTier(rt) {
        return false;
      }
      if StringAt(rt, "cli") == "" {
        return false;
      }
      if ROUTER in Entries(block.agents) {
        return false;
      }
      block := PutAgent(block, ROUTER, RouterRule(rt));
      router := Some(BlockWithout(rt, ROUTER_KEYS));
      ok := true;
    }

    /** The three steps, in order, until one refuses. */
    method Run() returns (ok: bool)
      requires Valid() && !dropPins && workflow == None && router == None
      modifies this, Maps(block)
      ensures ok == !MigrationRefused(policy, old(View(block)))
      ensures ok ==> Patch(dropPins, workflow, router, View(block)) == MigrationPatch(policy, old(View(block)))
    {
      hide HasRouter, HasTail, PinsRefused, BlockWithout, TailExcludes, TailOff, PlanTier, ProposeTier, StringAt, RouterRule, PinRules;
      AfterPins(policy, View(block));
      ok := MovePins();
      if !ok {
        return;
      }
      ok := MoveTail();
      if !ok {
        return;
      }
      ok := MoveRouterKeys();
    }
  }

  /** No pin but those still to do is refused. */
  predicate PinsFree(pins: map<string, Pin>, agents: map<string, AgentRule>, todo: set<string>) {
    forall phase :: phase in pins.Keys - todo ==> pins[phase].cli != "" && phase !in agents
  }

  lemma NoPinsYet(pins: map<string, Pin>, agents: map<string, AgentRule>)
    ensures agents + PinRules(pins - pins.Keys) == agents && PinsFree(pins, agents, pins.Keys)
  {
  }

  lemma OnePinMore(p: Policy, t: Table, todo: set<string>, phase: string)
    requires phase in todo && todo <= p.pins.Keys && PinsFree(p.pins, t.agents, todo)
    ensures phase in t.agents + PinRules(p.pins - todo) <==> phase in t.agents
    ensures p.pins[phase].cli == "" || phase in t.agents ==> PinsRefused(p, t)
    ensures p.pins[phase].cli != "" && phase !in t.agents ==> PinsFree(p.pins, t.agents, todo - {phase})
    ensures (t.agents + PinRules(p.pins - todo))[phase := PinRule(p.pins[phase])] == t.agents + PinRules(p.pins - (todo - {phase}))
  {
    hide PinRule;
    var left, right := PinRules(p.pins - todo), PinRules(p.pins - (todo - {phase}));
    assert left[phase := PinRule(p.pins[phase])] == right;
  }

  lemma AllPinsFree(p: Policy, t: Table)
    requires PinsFree(p.pins, t.agents, {})
    ensures !PinsRefused(p, t) && p.pins - {} == p.pins
  {
    assert p.pins - {} == p.pins;
  }

  lemma RouterKeyByKey(p: Policy)
    requires p.router.Some?
    ensures HasRouter(p) <==> var r := p.router.value;
      !(StringAt(r, "cli") == "" && StringAt(r, "model") == "" && StringAt(r, "plan_model") == "" && StringAt(r, "propose_model") == "")
  {
    var r := p.router.value;
    if HasRouter(p) {
      var key :| key in ROUTER_KEYS && StringAt(r, key) != "";
      assert key == "cli" || key == "model" || key == "plan_model" || key == "propose_model";
    } else {
      assert "cli" in ROUTER_KEYS && "model" in ROUTER_KEYS && "plan_model" in ROUTER_KEYS && "propose_model" in ROUTER_KEYS;
    }
  }

  lemma AfterPins(p: Policy, t: Table)
    ensures ROUTER in WithPins(p, t).agents <==> ROUTER in t.agents || ROUTER in p.pins
    ensures WithTail(p, WithPins(p, t)).agents == WithPins(p, t).agents
  {
  }

  /** The three steps, in order, on a clone. It modifies nothing that existed before, so the caller's block and
      every map it refers to are as they were, after an error too. */
  method MigrateLegacyKeys(p: Policy, b: Block) returns (r: Result<Patch>)
    ensures r == if MigrationRefused(p, View(b)) then Err else Ok(MigrationPatch(p, View(b)))
  {
    hide MigrationRefused, MigrationPatch;
    var moves := Start(p, b);
    var ok := moves.Run();
    if !ok {
      return Err;
    }
    r := Ok(Patch(moves.dropPins, moves.workflow, moves.router, View(moves.block)));
  }

  method Start(p: Policy, b: Block) returns (moves: Moves)
    ensures fresh(moves) && moves.Valid() && fresh(Maps(moves.block)) && moves.policy == p
    ensures View(moves.block) == View(b)
    ensures !moves.dropPins && moves.workflow == None && moves.router == None
  {
    var block := CloneRouting(b);
    moves := new Moves(p, block);
  }

  // ---------------------------------------------------------------- what migration keeps

  function RouterAgents(p: Policy): map<string, AgentRule> {
    if HasRouter(p) then map[ROUTER := RouterRule(p.router.value)] else map[]
  }

  /** Where an agent of the migrated table comes from. */
  predicate AgentIs(p: Policy, t: Table, m: Table, a: string) {
    && (a in m.agents <==> a in t.agents || a in p.pins || a in RouterAgents(p))
    && !(a in t.agents && a in p.pins) && !(a in RouterAgents(p) && (a in t.agents || a in p.pins))
    && (a in t.agents ==> m.agents[a] == t.agents[a])
    && (a in p.pins ==> m.agents[a] == AgentRule([p.pins[a].cli], p.pins[a].model, "", "", 0, "", "") && p.pins[a].cli != "")
  }

  /** After a migration the agents are three disjoint parts: those of the table, one rule for each pin, and at
      most one rule for the router, with the CLI of the router block and the one tier of its decisions. The table is
      otherwise the same, but for what follows a chain. */
  lemma AgentsAreDisjointUnion(p: Policy, t: Table)
    requires !MigrationRefused(p, t)
    ensures t.agents.Keys !! p.pins.Keys !! RouterAgents(p).Keys
    ensures Migrated(p, t).agents.Keys == t.agents.Keys + p.pins.Keys + RouterAgents(p).Keys
    ensures forall a :: AgentIs(p, t, Migrated(p, t), a)
    ensures RestIs(p, t, Migrated(p, t))
  {
    RestOfTable(p, t);
    hide MigrationRefused, Migrated, AgentIs;
    forall a ensures AgentIs(p, t, Migrated(p, t), a) {
      OneAgent(p, t, a);
    }
    hide RestIs;
    KeysUnion(p, t, Migrated(p, t));
  }

  lemma KeysUnion(p: Policy, t: Table, m: Table)
    requires forall a :: AgentIs(p, t, m, a)
    ensures t.agents.Keys !! p.pins.Keys !! RouterAgents(p).Keys
    ensures m.agents.Keys == t.agents.Keys + p.pins.Keys + RouterAgents(p).Keys
  {
    hide RouterAgents;
    forall a ensures a in m.agents <==> a in t.agents || a in p.pins || a in RouterAgents(p)
      ensures !(a in t.agents && a in p.pins) && !(a in RouterAgents(p) && (a in t.agents || a in p.pins))
    {
      assert AgentIs(p, t, m, a);
    }
  }

  predicate RestIs(p: Policy, t: Table, m: Table) {
    && (HasRouter(p) ==>
          var r := p.router.value;
          && ROUTER in m.agents && m.agents[ROUTER].cli == [StringAt(r, "cli")] && StringAt(r, "cli") != ""
          && m.agents[ROUTER].model == PlanTier(r) == ProposeTier(r))
    && m == t.(agents := m.agents, afterChain := if TailOff(p) then STOP else t.afterChain)
  }

  lemma RestOfTable(p: Policy, t: Table)
    requires !MigrationRefused(p, t)
    ensures RestIs(p, t, Migrated(p, t))
  {
    hide PinsRefused, TailOff, TailExcludes, HasTail, HasRouter, StringAt, PinRules, PlanTier, ProposeTier;
  }

  lemma OneAgent(p: Policy, t: Table, a: string)
    requires !MigrationRefused(p, t)
    ensures AgentIs(p, t, Migrated(p, t), a)
  {
    hide TailOff, TailExcludes, HasTail, HasRouter, PlanTier, ProposeTier, StringAt, RouterRule;
  }

  /** A text under a key; a value of another kind is no text. */
  ghost predicate Reads(o: Object, key: string, text: string) {
    if key in o && o[key].Str? then text == o[key].text else text == ""
  }

  ghost function Rest(o: Object, keys: set<string>): Option<Object> {
    if forall key :: key in o ==> key in keys then None else Some(map key | key in o && key !in keys :: o[key])
  }

  lemma RestIsBlock(o: Object, keys: set<string>)
    ensures BlockWithout(o, keys) == Rest(o, keys)
  {
    assert o - keys == map key | key in o && key !in keys :: o[key];
    if forall key :: key in o ==> key in keys {
      assert o - keys == map[];
    } else {
      var key :| key in o && key !in keys;
      assert key in o - keys;
    }
  }

  /** The router block, key by key: it counts when one of its four texts is there. It is refused when plan and propose
      would not run at one tier, where model stands in for either, when it has no CLI, or when the name router is
      taken; and else its CLI and that tier become the rule of the router. */
  lemma RouterMoves(p: Policy, t: Table, cli: string, model: string, plan: string, propose: string)
    requires p.router.Some? && Reads(p.router.value, "cli", cli) && Reads(p.router.value, "model", model)
    requires Reads(p.router.value, "plan_model", plan) && Reads(p.router.value, "propose_model", propose)
    ensures var moves := cli != "" || model != "" || plan != "" || propose != "";
      var planTier, proposeTier := if plan != "" then plan else model, if propose != "" then propose else model;
      && (RouterRefused(p, t) <==> moves && (planTier != proposeTier || cli == "" || "router" in t.agents || "router" in p.pins))
      && MigrationPatch(p, t).router ==
           (if moves then Some(Rest(p.router.value, {"cli", "model", "plan_model", "propose_model"})) else None)
      && (moves ==> "router" in Migrated(p, t).agents && Migrated(p, t).agents["router"] == AgentRule([cli], planTier, "", "", 0, "", ""))
      && (!moves ==> ("router" in Migrated(p, t).agents <==> "router" in t.agents || "router" in p.pins))
  {
    RouterKeyByKey(p);
    RestIsBlock(p.router.value, ROUTER_KEYS);
    hide HasRouter, BlockWithout, Rest, HasTail, TailOff, PinRule;
  }

  /** The tail of the workflow block, key by key: a fallback that is switched off becomes a stop, excluded names are
      refused, and both keys go. */
  lemma TailMoves(p: Policy, t: Table)
    requires p.workflow.Some?
    ensures var w := p.workflow.value;
      var fallback := "universal_fallback" in w && w["universal_fallback"].Bool?;
      var exclude := "universal_fallback_exclude" in w && w["universal_fallback_exclude"].Strings?;
      && (exclude && w["universal_fallback_exclude"].list != [] ==> MigrationRefused(p, t))
      && (!exclude || w["universal_fallback_exclude"].list == [] ==>
            (MigrationRefused(p, t) <==> PinsRefused(p, t) || RouterRefused(p, t)))
      && Migrated(p, t).afterChain == (if fallback && !w["universal_fallback"].flag then "stop" else t.afterChain)
      && MigrationPatch(p, t).workflow ==
           (if fallback || exclude then Some(Rest(w, {"universal_fallback", "universal_fallback_exclude"})) else None)
  {
    RestIsBlock(p.workflow.value, TAIL_KEYS);
    hide HasRouter, BlockWithout, Rest, PinsRefused, RouterRefused, PinRules, RouterRule;
  }

  /** Migrating the patched file again is not refused and changes nothing. */
  lemma MigratingTwice(p: Policy, t: Table)
    requires !MigrationRefused(p, t)
    ensures var once := Patched(p, MigrationPatch(p, t));
      && !MigrationRefused(once, once.routing)
      && Patched(once, MigrationPatch(once, once.routing)) == once
  {
    var once := Patched(p, MigrationPatch(p, t));
    assert once.pins == map[];
    assert PinRules(once.pins) == map[];
    assert !HasTail(once);
    assert !HasRouter(once);
    assert TailOff(once) ==> HasTail(once);
    assert once.routing.agents + map[] == once.routing.agents;
  }

  /** Of the two stripped blocks only the moved keys go, and a block that goes whole had only those. */
  lemma OtherKeysStay(p: Policy, t: Table, key: string)
    requires !MigrationRefused(p, t)
    ensures var once := Patched(p, MigrationPatch(p, t));
      && (key !in TAIL_KEYS && p.workflow.Some? && key in p.workflow.value ==>
            once.workflow.Some? && key in once.workflow.value && once.workflow.value[key] == p.workflow.value[key])
      && (key !in ROUTER_KEYS && p.router.Some? && key in p.router.value ==>
            once.router.Some? && key in once.router.value && once.router.value[key] == p.router.value[key])
      && (once.workflow.Some? && key in once.workflow.value ==> p.workflow.Some? && key in p.workflow.value)
      && (once.router.Some? && key in once.router.value ==> p.router.Some? && key in p.router.value)
  {
    hide MigrationRefused, Migrated;
    if p.workflow.Some? {
      OnlyKeysGo(p.workflow.value, TAIL_KEYS, key);
    }
    if p.router.Some? {
      OnlyKeysGo(p.router.value, ROUTER_KEYS, key);
    }
  }

  lemma OnlyKeysGo(o: Object, keys: set<string>, key: string)
    ensures var rest := BlockWithout(o, keys);
      && (key in o && key !in keys ==> rest.Some? && key in rest.value && rest.value[key] == o[key])
      && (rest.Some? && key in rest.value ==> key in o && key !in keys && rest.value[key] == o[key])
  {
    assert key in o && key !in keys ==> key in o - keys;
  }
}
