/** The migrate verb as a whole: the profiles' efforts move into the table first, the legacy keys after them
    (go/cmd/evolve/cmd_cli_routing_write.go). */
module RoutingMigration {
  import opened Base
  import opened Routing
  import opened RoutingTables
  import opened Migration
  import opened ProfileEffort
  import opened ProfileEffortProofs
  import MemberRemoval

  function MigrateAll(p: Policy, t: Table, files: seq<ProfileFile>, parse: Parser, unquote: MemberRemoval.Unquote): Result<Patch> {
    match MoveAll(t, files, parse, unquote)
    case Err => Err
    case Ok(u) => if MigrationRefused(p, u) then Err else Ok(MigrationPatch(p, u))
  }

  /** A table on maps of its own, as the move leaves it: each of its steps writes to a clone. */
  method OnFreshMaps(t: Table) returns (b: Block)
    ensures View(b) == t && fresh(Maps(b))
  {
    var work := new GoMap(t.work);
    var agents := new GoMap(t.agents);
    var tiers := new GoMap(t.tiers);
    var floors := new GoMap(t.floors);
    b := Block(t.clis, t.default_, t.afterChain, work, agents, tiers, floors);
  }

  /** Fails without a block, on the first profile that cannot move, and on a legacy key that cannot. Only the
      rewrites that the caller shares are written to. */
  method MigrateRoutingEdit(p: Policy, block: Option<Block>, files: seq<ProfileFile>, rewrites: GoMap<Bytes>,
                            parse: Parser, unquote: MemberRemoval.Unquote)
    returns (r: Result<Patch>)
    modifies rewrites
    ensures block == None ==> r == Err && rewrites.entries == old(rewrites.entries)
    ensures block.Some? ==> r == MigrateAll(p, old(View(block.value)), files, parse, unquote)
    ensures r.Ok? ==> rewrites.entries == old(rewrites.entries) + Rewrites(files, parse, unquote)
  {
    hide MigrationRefused, MigrationPatch, MoveAll, Rewrites;
    if block == None {
      return Err;
    }
    var c := CloneRouting(block.value);
    var moved := MoveProfileEfforts(files, View(c), rewrites, parse, unquote);
    if moved.Err? {
      return Err;
    }
    var b := OnFreshMaps(moved.value);
    r := MigrateLegacyKeys(p, b);
  }

  // ---------------------------------------------------------------- what the two moves do to each other

  lemma MigrationKeepsEfforts(p: Policy, u: Table, agent: string)
    requires !MigrationRefused(p, u)
    ensures Migrated(p, u).tiers == u.tiers && EffortAt(Migrated(p, u), agent) == EffortAt(u, agent)
  {
    hide TailOff, TailExcludes, HasTail, HasRouter, PlanTier, ProposeTier, StringAt;
  }

  /** The whole migration honours a profile exactly when no later profile of its name disagrees: neither the rules
      of the pins nor the router's rule take away what a profile declared. */
  lemma MigrationHonours(p: Policy, t: Table, files: seq<ProfileFile>, parse: Parser, unquote: MemberRemoval.Unquote, i: nat)
    requires MigrateAll(p, t, files, parse, unquote).Ok? && i < |files| && DeclaredIn(files[i], parse).Some?
    ensures Honours(MigrateAll(p, t, files, parse, unquote).value.routing, DeclaredIn(files[i], parse).value)
      <==> NoneLaterDisagrees(t, files, parse, i)
  {
    hide MoveAll, MigrationRefused, Migrated, Honours, NoneLaterDisagrees, DeclaredIn, EffortAt;
    var u, q := MoveAll(t, files, parse, unquote).value, DeclaredIn(files[i], parse).value;
    HonouredExactly(t, files, parse, unquote, i);
    MigrationKeepsEfforts(p, u, q.name);
    HonoursFrame(u, Migrated(p, u), q);
  }

  /** A level that goes into the table takes its agent's name from a pin, or from the router. */
  ghost predicate TakesLegacyName(p: Policy, t: Table, files: seq<ProfileFile>, parse: Parser) {
    exists agent :: SomeSets(t, files, parse, agent) && (agent in p.pins || (agent == ROUTER && HasRouter(p)))
  }

  /** After the profiles have moved, the legacy keys are refused exactly when they were refused before, or when the
      level of some profile has made a rule for the name of a pin or of the router. */
  lemma RefusedExactly(p: Policy, t: Table, files: seq<ProfileFile>, parse: Parser, unquote: MemberRemoval.Unquote)
    requires MoveAll(t, files, parse, unquote).Ok?
    ensures MigrateAll(p, t, files, parse, unquote).Err? <==> MigrationRefused(p, t) || TakesLegacyName(p, t, files, parse)
  {
    var u := MoveAll(t, files, parse, unquote).value;
    MoveAllTracks(t, files, parse, unquote);
    hide MoveAll, HasTail, TailExcludes, HasRouter, PlanTier, ProposeTier, StringAt, SomeSets, EffortAt, DeclaredIn, MigrationPatch;
    forall a ensures a in u.agents <==> a in t.agents || SomeSets(t, files, parse, a) {
      assert TracksAgent(t, u, files, parse, a);
    }
    hide Tracks;
    PinsRefusedExactly(p, t, u, files, parse);
    if TakesLegacyName(p, t, files, parse) {
      var agent :| SomeSets(t, files, parse, agent) && (agent in p.pins || (agent == ROUTER && HasRouter(p)));
      assert agent in u.agents;
    }
  }

  lemma PinsRefusedExactly(p: Policy, t: Table, u: Table, files: seq<ProfileFile>, parse: Parser)
    requires forall a :: a in u.agents <==> a in t.agents || SomeSets(t, files, parse, a)
    ensures PinsRefused(p, u) <==> PinsRefused(p, t) || exists a :: a in p.pins && SomeSets(t, files, parse, a)
  {
    hide SomeSets;
    if PinsRefused(p, u) {
      var phase :| phase in p.pins && (p.pins[phase].cli == "" || phase in u.agents);
      assert phase in u.agents ==> phase in t.agents || SomeSets(t, files, parse, phase);
    }
    if PinsRefused(p, t) {
      var phase :| phase in p.pins && (p.pins[phase].cli == "" || phase in t.agents);
      assert phase in t.agents ==> phase in u.agents;
    }
    if a :| a in p.pins && SomeSets(t, files, parse, a) {
      assert a in u.agents;
    }
  }
}
