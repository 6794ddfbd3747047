/** The routing edits as they are made: in place, on maps that the block only refers to, behind a clone
    (go/cmd/evolve/cli_routing_edit.go, cmd_cli_routing_write.go). */
module RoutingTables {
  import opened Base
  import opened Routing

  /** A map that is shared by reference; null is the nil map, which reads as empty. */
  class GoMap<V> {
    var entries: map<string, V>

    constructor (entries: map<string, V>)
      ensures this.entries == entries
    {
      this.entries := entries;
    }
  }

  /** A routing block: passed by value, with four maps it refers to. */
  datatype Block = Block(clis: seq<string>, default_: seq<string>, afterChain: string,
                         work: GoMap?<seq<string>>, agents: GoMap?<AgentRule>,
                         tiers: GoMap?<TierRule>, floors: GoMap?<seq<string>>)

  function Ref<V>(m: GoMap?<V>): set<object> { if m == null then {} else {m} }

  function Maps(b: Block): set<object> { Ref(b.work) + Ref(b.agents) + Ref(b.tiers) + Ref(b.floors) }

  function Entries<V>(m: GoMap?<V>): map<string, V>
    reads m
  {
    if m == null then map[] else m.entries
  }

  /** The table that the block stands for. */
  function View(b: Block): Table
    reads Maps(b)
  {
    Table(b.clis, b.default_, b.afterChain, Entries(b.work), Entries(b.agents), Entries(b.tiers), Entries(b.floors))
  }

  /** No map serves two purposes. */
  predicate Apart(b: Block) { Ref(b.work) !! Ref(b.agents) !! Ref(b.tiers) !! Ref(b.floors) }

  method CloneMap<V>(m: GoMap?<V>) returns (c: GoMap?<V>)
    ensures (c == null <==> m == null) && (c != null ==> fresh(c)) && Entries(c) == Entries(m)
  {
    if m == null {
      c := null;
    } else {
      c := new GoMap(m.entries);
    }
  }

  method CloneRouting(b: Block) returns (c: Block)
    ensures View(c) == View(b) && Apart(c) && fresh(Maps(c))
  {
    var work := CloneMap(b.work);
    var tiers := CloneMap(b.tiers);
    var agents := CloneMap(b.agents);
    var floors := CloneMap(b.floors);
    c := b.(work := work, tiers := tiers, agents := agents, floors := floors);
  }

  /** Adds an entry in place, to a new map when there is none yet. */
  method WithEntry<V>(m: GoMap?<V>, key: string, value: V) returns (r: GoMap<V>)
    modifies Ref(m)
    ensures if m == null then fresh(r) else r == m
    ensures r.entries == old(Entries(m))[key := value]
  {
    if m == null {
      r := new GoMap(map[]);
    } else {
      r := m;
    }
    r.entries := r.entries[key := value];
  }

  method Delete<V>(m: GoMap?<V>, key: string)
    modifies Ref(m)
    ensures Entries(m) == old(Entries(m)) - {key}
  {
    if m != null {
      m.entries := m.entries - {key};
    }
  }

  method PutTier(b: Block, name: string, value: TierRule) returns (r: Block)
    requires Apart(b)
    modifies Ref(b.tiers)
    ensures View(r) == old(View(b)).(tiers := old(Entries(b.tiers))[name := value])
    ensures Apart(r) && fresh(Maps(r) - Maps(b))
  {
    var tiers := WithEntry(b.tiers, name, value);
    r := b.(tiers := tiers);
  }

  method DropTier(b: Block, name: string)
    requires Apart(b)
    modifies Ref(b.tiers)
    ensures View(b) == old(View(b)).(tiers := old(Entries(b.tiers)) - {name})
  {
    Delete(b.tiers, name);
  }

  method PutWork(b: Block, name: string, value: seq<string>) returns (r: Block)
    requires Apart(b)
    modifies Ref(b.work)
    ensures View(r) == old(View(b)).(work := old(Entries(b.work))[name := value])
    ensures Apart(r) && fresh(Maps(r) - Maps(b))
  {
    var work := WithEntry(b.work, name, value);
    r := b.(work := work);
  }

  method DropWork(b: Block, name: string)
    requires Apart(b)
    modifies Ref(b.work)
    ensures View(b) == old(View(b)).(work := old(Entries(b.work)) - {name})
  {
    Delete(b.work, name);
  }

  method PutAgent(b: Block, name: string, value: AgentRule) returns (r: Block)
    requires Apart(b)
    modifies Ref(b.agents)
    ensures View(r) == old(View(b)).(agents := old(Entries(b.agents))[name := value])
    ensures Apart(r) && fresh(Maps(r) - Maps(b)) && r == b.(agents := r.agents)
    ensures r.agents == b.agents || fresh(Ref(r.agents))
  {
    var agents := WithEntry(b.agents, name, value);
    r := b.(agents := agents);
  }

  method DropAgent(b: Block, name: string)
    requires Apart(b)
    modifies Ref(b.agents)
    ensures View(b) == old(View(b)).(agents := old(Entries(b.agents)) - {name})
  {
    Delete(b.agents, name);
  }

  method PutFloor(b: Block, name: string, value: seq<string>) returns (r: Block)
    requires Apart(b)
    modifies Ref(b.floors)
    ensures View(r) == old(View(b)).(floors := old(Entries(b.floors))[name := value])
    ensures Apart(r) && fresh(Maps(r) - Maps(b))
  {
    var floors := WithEntry(b.floors, name, value);
    r := b.(floors := floors);
  }

  method DropFloor(b: Block, name: string)
    requires Apart(b)
    modifies Ref(b.floors)
    ensures View(b) == old(View(b)).(floors := old(Entries(b.floors)) - {name})
  {
    Delete(b.floors, name);
  }

  method SetRoutingKey(b: Block, e: Edit) returns (ok: bool, r: Block)
    requires Apart(b)
    modifies Maps(b)
    ensures ok == SetKey(old(View(b)), e).Ok?
    ensures View(r) == if ok then SetKey(old(View(b)), e).value else old(View(b))
    ensures !ok ==> View(b) == old(View(b))
    ensures fresh(Maps(r) - Maps(b))
  {
    hide KeyOf, Refused, TierRuleWith, AgentRuleWith;
    r := b;
    if Refused(e) {
      return false, b;
    }
    match KeyOf(e.key)
    case Plain(word) =>
      if word == "clis" {
        r := b.(clis := e.values);
      } else if word == "default" {
        r := b.(default_ := e.values);
      } else if word == "after_chain" {
        AfterChainHasValue(e);
        r := b.(afterChain := e.values[0]);
      } else {
        return false, b;
      }
      ok := true;
    case Scoped(group, name) =>
      if group == "tiers" {
        r := PutTier(b, name, TierRuleWith(At(Entries(b.tiers), name, NO_TIER), e));
      } else if group == "work" {
        r := PutWork(b, name, e.values);
      } else if group == "agents" {
        r := PutAgent(b, name, AgentRuleWith(At(Entries(b.agents), name, NO_AGENT), e));
      } else if group == "floors" {
        r := PutFloor(b, name, e.values);
      } else {
        return false, b;
      }
      ok := true;
  }

  lemma AfterChainHasValue(e: Edit)
    requires !Refused(e) && KeyOf(e.key).Plain?
    ensures e.values != []
  {
    hide KeyOf;
  }

  /** The entry is written without its effort first, and deleted afterwards when nothing routes by it. */
  method UnsetTierEffort(b: Block, name: string) returns (r: Block)
    requires Apart(b) && name in Entries(b.tiers)
    modifies Ref(b.tiers)
    ensures View(r) == UnsetEffort(old(View(b)), "tiers", name).value
    ensures fresh(Maps(r) - Maps(b))
  {
    var rule := b.tiers.entries[name].(effort := "");
    r := PutTier(b, name, rule);
    if TierIsBare(rule) {
      DropTier(r, name);
      assert Entries(r.tiers) == old(Entries(b.tiers)) - {name};
    }
  }

  method UnsetAgentEffort(b: Block, name: string) returns (r: Block)
    requires Apart(b) && name in Entries(b.agents)
    modifies Ref(b.agents)
    ensures View(r) == UnsetEffort(old(View(b)), "agents", name).value
    ensures fresh(Maps(r) - Maps(b))
  {
    var rule := b.agents.entries[name].(effort := "");
    r := PutAgent(b, name, rule);
    if AgentIsBare(rule) {
      DropAgent(r, name);
      assert Entries(r.agents) == old(Entries(b.agents)) - {name};
    }
  }

  method UnsetEffortOf(b: Block, group: string, name: string) returns (ok: bool, r: Block)
    requires Apart(b)
    modifies Maps(b)
    ensures ok == UnsetEffort(old(View(b)), group, name).Ok?
    ensures View(r) == if ok then UnsetEffort(old(View(b)), group, name).value else old(View(b))
    ensures !ok ==> View(b) == old(View(b))
    ensures fresh(Maps(r) - Maps(b))
  {
    r := b;
    if group == "tiers" {
      if name !in Entries(b.tiers) {
        return false, b;
      }
      r := UnsetTierEffort(b, name);
    } else if group == "agents" {
      if name !in Entries(b.agents) {
        return false, b;
      }
      r := UnsetAgentEffort(b, name);
    } else {
      return false, b;
    }
    ok := true;
  }

  method UnsetShareOf(b: Block, group: string, name: string) returns (ok: bool, r: Block)
    requires Apart(b)
    modifies Maps(b)
    ensures ok == UnsetShare(old(View(b)), group, name).Ok?
    ensures View(r) == if ok then UnsetShare(old(View(b)), group, name).value else old(View(b))
    ensures !ok ==> View(b) == old(View(b))
    ensures fresh(Maps(r) - Maps(b))
  {
    r := b;
    if group != "tiers" || name !in Entries(b.tiers) {
      return false, b;
    }
    r := PutTier(b, name, b.tiers.entries[name].(sharePct := 0));
    ok := true;
  }

  method UnsetRoutingKey(b: Block, key: string) returns (ok: bool, r: Block)
    requires Apart(b)
    modifies Maps(b)
    ensures ok == UnsetKey(old(View(b)), key).Ok?
    ensures View(r) == if ok then UnsetKey(old(View(b)), key).value else old(View(b))
    ensures !ok ==> View(b) == old(View(b))
    ensures fresh(Maps(r) - Maps(b))
  {
    hide KeyOf, HasSuffix, UnsetEffort, UnsetShare;
    r := b;
    match KeyOf(key)
    case Plain(word) =>
      if word == "clis" {
        r := b.(clis := []);
      } else if word == "default" {
        r := b.(default_ := []);
      } else if word == "after_chain" {
        r := b.(afterChain := "");
      } else if word == "floors" {
        r := b.(floors := null);
      } else {
        return false, b;
      }
      ok := true;
    case Scoped(group, name) =>
      if HasSuffix(name, EFFORT_SUFFIX) {
        ok, r := UnsetEffortOf(b, group, Trimmed(name, EFFORT_SUFFIX));
      } else if HasSuffix(name, SHARE_SUFFIX) {
        ok, r := UnsetShareOf(b, group, Trimmed(name, SHARE_SUFFIX));
      } else if group == "tiers" {
        DropTier(b, name);
        ok := true;
      } else if group == "work" {
        DropWork(b, name);
        ok := true;
      } else if group == "agents" {
        DropAgent(b, name);
        ok := true;
      } else if group == "floors" {
        if name !in Entries(b.floors) {
          return false, b;
        }
        DropFloor(b, name);
        ok := true;
      } else {
        return false, b;
      }
  }

  /** A set edit of the policy's block. Nothing that existed before is modified, so the caller's block, and any
      other block that shares its maps, still stands for the table it stood for. */
  method SetRoutingEdit(b: Block, e: Edit) returns (ok: bool, r: Block)
    ensures ok == SetKey(View(b), e).Ok?
    ensures View(r) == if ok then SetKey(View(b), e).value else View(b)
    ensures fresh(Maps(r))
  {
    var c := CloneRouting(b);
    ok, r := SetRoutingKey(c, e);
  }

  method UnsetRoutingEdit(b: Block, key: string) returns (ok: bool, r: Block)
    ensures ok == UnsetKey(View(b), key).Ok?
    ensures View(r) == if ok then UnsetKey(View(b), key).value else View(b)
    ensures fresh(Maps(r))
  {
    var c := CloneRouting(b);
    ok, r := UnsetRoutingKey(c, key);
  }
}
