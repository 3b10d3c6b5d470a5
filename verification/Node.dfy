/**
 * The node's network state and the plans that change it: internal/link/apply.go and teardown.go. Every command may
 * run, be refused without effect, be refused although it took effect, or report that there was nothing to do.
 */
module Node {
  import opened Text
  import opened Identity

  // ---------------------------------------------------------------- the kernel

  /** A slot of a Gateway. */
  type Owner = (LinkID, Slot)

  /** The names of every slot; the real ones are Identity.NewSlotIdentity. */
  type Names = Owner -> SlotIdentity

  ghost predicate Distinct(names: Names) { forall a: Owner, b: Owner :: a != b ==> Disjoint(names(a), names(b)) }

  function RealNames(): Names { (o: Owner) => NewSlotIdentity(o.0, o.1) }

  lemma RealNamesDistinct()
    ensures Distinct(RealNames())
  {
    forall a: Owner, b: Owner | a != b ensures Disjoint(RealNames()(a), RealNames()(b)) {
      SlotIdentitiesDisjoint(a.0, a.1, b.0, b.1);
    }
  }

  datatype Rule = Rule(mark: string, mask: string, table: nat)

  /** Interfaces, policy rules, per-table default and throw routes, and nft tables. */
  datatype Kernel = Kernel(ifaces: set<string>, rules: set<Rule>, defaults: map<nat, string>, throws: map<nat,
      set<string>>, tables: set<string>)

  datatype Command =
    | LinkAdd(iface: string)
    | Device(iface: string)                       // wg syncconf, addr replace, link set, a sysctl write
    | RouteDefault(iface: string, table: nat)
    | FlushThrows(table: nat)
    | Throw(table: nat, target: string)
    | RuleAdd(rule: Rule)
    | LoadRuleset(name: string)
    | Conntrack
    | RuleDel(rule: Rule)
    | FlushTable(table: nat)
    | LinkDel(iface: string)
    | TableDel(name: string)

  /** The kernel carries the command out rather than refusing it. */
  predicate Accepts(k: Kernel, c: Command) {
    match c
    case LinkAdd(i) => i !in k.ifaces
    case Device(i) => i in k.ifaces
    case RouteDefault(i, _) => i in k.ifaces
    case RuleAdd(r) => r !in k.rules
    case RuleDel(r) => r in k.rules
    case LinkDel(i) => i in k.ifaces
    case TableDel(n) => n in k.tables
    case _ => true
  }

  function ThrowsOf(k: Kernel, table: nat): set<string> { if table in k.throws then k.throws[table] else {} }

  function Effect(k: Kernel, c: Command): Kernel {
    match c
    case LinkAdd(i) => k.(ifaces := k.ifaces + {i})
    case RouteDefault(i, t) => k.(defaults := k.defaults[t := i])
    case FlushThrows(t) => k.(throws := k.throws - {t})
    case Throw(t, x) => k.(throws := k.throws[t := ThrowsOf(k, t) + {x}])
    case RuleAdd(r) => k.(rules := k.rules + {r})
    case LoadRuleset(n) => k.(tables := k.tables + {n})
    case RuleDel(r) => k.(rules := k.rules - {r})
    case FlushTable(t) => k.(defaults := k.defaults - {t}, throws := k.throws - {t})
    case LinkDel(i) => k.(ifaces := k.ifaces - {i}, defaults := map t | t in k.defaults
        && k.defaults[t] != i :: k.defaults[t])
    case TableDel(n) => k.(tables := k.tables - {n})
    case Device(_) => k
    case Conntrack => k
  }

  datatype Reply = Ran | Nothing | Refused(took: bool)

  /** Nothing to do: the rule is there already, or the object to delete is gone already. */
  predicate Tolerated(k: Kernel, c: Command) {
    match c
    case RuleAdd(r) => r in k.rules
    case RuleDel(r) => r !in k.rules
    case FlushTable(t) => t !in k.defaults && ThrowsOf(k, t) == {}
    case LinkDel(i) => i !in k.ifaces
    case TableDel(n) => n !in k.tables
    case Conntrack => true
    case _ => false
  }

  predicate Possible(k: Kernel, c: Command, r: Reply) {
    match r
    case Ran => Accepts(k, c)
    case Nothing => Tolerated(k, c)
    case Refused(took) => took ==> Accepts(k, c)
  }

  /** What a wished-for reply comes to: a wish that makes no sense here is a plain refusal. */
  function Answer(k: Kernel, c: Command, wish: Reply): (r: Reply)
    ensures Possible(k, c, r)
  {
    if Possible(k, c, wish) then wish else Refused(false)
  }

  function After(k: Kernel, c: Command, r: Reply): Kernel {
    if r.Ran? || (r.Refused? && r.took) then Effect(k, c) else k
  }

  /** One reply after another, for as long as the process lives. */
  type Oracle = nat -> Reply

  /** A plan's end, whether every command went well, and the node after each command. */
  datatype Report = Report(kernel: Kernel, ok: bool, trail: seq<Kernel>)

  ghost function RunUntilFailure(k: Kernel, plan: seq<Command>, oracle: Oracle, at: nat): Report
    decreases |plan|
  {
    if plan == [] then Report(k, true, [])
    else
      var r := Answer(k, plan[0], oracle(at));
      var next := After(k, plan[0], r);
      if r.Refused? then Report(next, false, [next])
      else
        var rest := RunUntilFailure(next, plan[1..], oracle, at + 1);
        Report(rest.kernel, rest.ok, [next] + rest.trail)
  }

  ghost function RunAll(k: Kernel, plan: seq<Command>, oracle: Oracle, at: nat): Report
    decreases |plan|
  {
    if plan == [] then Report(k, true, [])
    else
      var r := Answer(k, plan[0], oracle(at));
      var next := After(k, plan[0], r);
      var rest := RunAll(next, plan[1..], oracle, at + 1);
      Report(rest.kernel, rest.ok && !r.Refused?, [next] + rest.trail)
  }

  // ---------------------------------------------------------------- one slot's part of the node

  function RuleOf(id: SlotIdentity): Rule { Rule(id.mark, id.markMask, id.routeTable) }

  datatype SlotState = SlotState(iface: bool, rule: bool, default: Option<string>, throws: set<string>)

  function SlotOf(k: Kernel, id: SlotIdentity): SlotState {
    SlotState(id.iface in k.ifaces, RuleOf(id) in k.rules,
              if id.routeTable in k.defaults then Some(k.defaults[id.routeTable]) else None, ThrowsOf(k, id.routeTable))
  }

  predicate Routed(s: SlotState) { s.default.Some? || s.throws != {} }

  predicate Present(s: SlotState) { s.iface || s.rule || Routed(s) }

  /** What a crash must never leave behind: a rule or a route without the interface it is found by. */
  predicate Anchored(s: SlotState) { s.rule || Routed(s) ==> s.iface }

  ghost predicate AllAnchored(names: Names, k: Kernel) { forall o: Owner :: Anchored(SlotOf(k, names(o))) }

  /** Every slot's default route leaves through its own interface. */
  ghost predicate Wired(names: Names, k: Kernel) {
    forall o: Owner :: SlotOf(k, names(o)).default.Some? ==> SlotOf(k, names(o)).default.value == names(o).iface
  }

  /** The commands of one slot's plans. */
  predicate Targets(c: Command, id: SlotIdentity) {
    match c
    case LinkAdd(i) => i == id.iface
    case Device(i) => i == id.iface
    case RouteDefault(i, t) => i == id.iface && t == id.routeTable
    case FlushThrows(t) => t == id.routeTable
    case Throw(t, _) => t == id.routeTable
    case RuleAdd(r) => r == RuleOf(id)
    case RuleDel(r) => r == RuleOf(id)
    case FlushTable(t) => t == id.routeTable
    case LinkDel(i) => i == id.iface
    case LoadRuleset(_) => false
    case Conntrack => false
    case TableDel(_) => false
  }

  lemma EffectFrame(names: Names, k: Kernel, c: Command, a: Owner, b: Owner)
    requires Distinct(names) && Wired(names, k) && Targets(c, names(a)) && a != b
    ensures SlotOf(Effect(k, c), names(b)) == SlotOf(k, names(b))
  {
    assert Disjoint(names(a), names(b));
    assert RuleOf(names(a)) != RuleOf(names(b));
  }

  lemma EffectWired(names: Names, k: Kernel, c: Command, a: Owner)
    requires Distinct(names) && Wired(names, k) && Targets(c, names(a))
    ensures Wired(names, Effect(k, c)) && Effect(k, c).tables == k.tables
  {
    var k' := Effect(k, c);
    forall o: Owner | SlotOf(k', names(o)).default.Some? ensures SlotOf(k', names(o)).default.value == names(o).iface {
      if o != a { EffectFrame(names, k, c, a, o); }
    }
  }

  /** Everything outside slot `a` is as it was. */
  ghost predicate Elsewhere(names: Names, a: Owner, k: Kernel, k': Kernel) {
    k'.tables == k.tables && forall o: Owner :: o != a ==> SlotOf(k', names(o)) == SlotOf(k, names(o))
  }

  lemma StepElsewhere(names: Names, k: Kernel, c: Command, r: Reply, a: Owner)
    requires Distinct(names) && Wired(names, k) && Targets(c, names(a))
    ensures Wired(names, After(k, c, r)) && Elsewhere(names, a, k, After(k, c, r))
  {
    EffectWired(names, k, c, a);
    forall o: Owner | o != a ensures SlotOf(Effect(k, c), names(o)) == SlotOf(k, names(o)) {
      EffectFrame(names, k, c, a, o);
    }
  }

  ghost predicate Own(plan: seq<Command>, id: SlotIdentity) { forall c :: c in plan ==> Targets(c, id) }

  /** A slot's plan, however it ends, leaves every other slot of every Gateway alone at every step. */
  lemma {:induction false} PlanElsewhere(names: Names, k: Kernel, plan: seq<Command>, oracle: Oracle, at: nat, a: Owner)
    requires Distinct(names) && Wired(names, k) && Own(plan, names(a))
    ensures var rep := RunUntilFailure(k, plan, oracle, at);
            && Wired(names, rep.kernel) && Elsewhere(names, a, k, rep.kernel)
            && forall i :: 0 <= i < |rep.trail| ==> Wired(names, rep.trail[i]) && Elsewhere(names, a, k, rep.trail[i])
    decreases |plan|
  {
    if plan != [] {
      var r := Answer(k, plan[0], oracle(at));
      StepElsewhere(names, k, plan[0], r, a);
      PlanElsewhere(names, After(k, plan[0], r), plan[1..], oracle, at + 1, a);
    }
  }

  lemma {:induction false} SweepElsewhere(names: Names, k: Kernel, plan: seq<Command>, oracle: Oracle, at: nat,
                                          a: Owner)
    requires Distinct(names) && Wired(names, k) && Own(plan, names(a))
    ensures var rep := RunAll(k, plan, oracle, at);
            && Wired(names, rep.kernel) && Elsewhere(names, a, k, rep.kernel)
    decreases |plan|
  {
    if plan != [] {
      var r := Answer(k, plan[0], oracle(at));
      StepElsewhere(names, k, plan[0], r, a);
      SweepElsewhere(names, After(k, plan[0], r), plan[1..], oracle, at + 1, a);
    }
  }

  // ---------------------------------------------------------------- the apply plan

  function DeviceSteps(id: SlotIdentity): (plan: seq<Command>) {
    [Device(id.iface), Device(id.iface), Device(id.iface), Device(id.iface), Device(id.iface)]
  }

  function ThrowSteps(id: SlotIdentity, targets: seq<string>): (plan: seq<Command>)
    ensures |plan| == |targets| && forall i :: 0 <= i < |plan| ==> plan[i] == Throw(id.routeTable, targets[i])
  {
    seq(|targets|, i requires 0 <= i < |targets| => Throw(id.routeTable, targets[i]))
  }

  /** localRouteCommands. */
  function RouteSteps(id: SlotIdentity, targets: seq<string>): seq<Command> {
    [RouteDefault(id.iface, id.routeTable), FlushThrows(id.routeTable)] + ThrowSteps(id, targets) +
        [RuleAdd(RuleOf(id))]
  }

  /**
   * buildApplyCommands for one slot: syncconf, address, link up and two sysctls, then the routes; the rule comes last.
   */
  function ApplyPlan(id: SlotIdentity, present: bool, targets: seq<string>): seq<Command> {
    (if present then [] else [LinkAdd(id.iface)]) + DeviceSteps(id) + RouteSteps(id, targets)
  }

  lemma ApplyPlanIsOwn(id: SlotIdentity, present: bool, targets: seq<string>)
    ensures Own(ApplyPlan(id, present, targets), id)
  {}

  /** Steps that need no interface, or need it there: none of them takes it away. */
  predicate Building(c: Command) {
    c.Device? || c.RouteDefault? || c.FlushThrows? || c.Throw? || c.RuleAdd?
  }

  lemma {:induction false} BuildingKeepsInterface(k: Kernel, plan: seq<Command>, oracle: Oracle, at: nat, iface: string)
    requires iface in k.ifaces && forall c :: c in plan ==> Building(c)
    ensures var rep := RunUntilFailure(k, plan, oracle, at);
            iface in rep.kernel.ifaces && forall i :: 0 <= i < |rep.trail| ==> iface in rep.trail[i].ifaces
    decreases |plan|
  {
    if plan != [] {
      assert Building(plan[0]);
      BuildingKeepsInterface(After(k, plan[0], Answer(k, plan[0], oracle(at))), plan[1..], oracle, at + 1, iface);
    }
  }

  /** At every step of an apply, failed or not, every slot's rule and routes have their interface. */
  lemma ApplyStaysAnchored(names: Names, k: Kernel, a: Owner, targets: seq<string>, oracle: Oracle, at: nat)
    requires Distinct(names) && Wired(names, k) && AllAnchored(names, k)
    ensures var id := names(a);
            var rep := RunUntilFailure(k, ApplyPlan(id, id.iface in k.ifaces, targets), oracle, at);
            && Wired(names, rep.kernel) && AllAnchored(names, rep.kernel) && Elsewhere(names, a, k, rep.kernel)
            && forall i :: 0 <= i < |rep.trail| ==>
                 AllAnchored(names, rep.trail[i]) && Elsewhere(names, a, k, rep.trail[i])
  {
    var id := names(a);
    var plan := ApplyPlan(id, id.iface in k.ifaces, targets);
    var rep := RunUntilFailure(k, plan, oracle, at);
    ApplyPlanIsOwn(id, id.iface in k.ifaces, targets);
    PlanElsewhere(names, k, plan, oracle, at, a);
    OwnSlotAnchored(names, k, a, targets, oracle, at);
    assert SlotOf(k, id).iface ==> id.iface in k.ifaces;
    forall i | 0 <= i < |rep.trail| ensures AllAnchored(names, rep.trail[i]) {
      ElsewhereAnchored(names, a, k, rep.trail[i]);
    }
    ElsewhereAnchored(names, a, k, rep.kernel);
  }

  lemma ElsewhereAnchored(names: Names, a: Owner, k: Kernel, k': Kernel)
    requires AllAnchored(names, k) && Elsewhere(names, a, k, k') && Anchored(SlotOf(k', names(a)))
    ensures AllAnchored(names, k')
  {
    forall o: Owner ensures Anchored(SlotOf(k', names(o))) {
      assert Anchored(SlotOf(k, names(o)));
    }
  }

  lemma OwnSlotAnchored(names: Names, k: Kernel, a: Owner, targets: seq<string>, oracle: Oracle, at: nat)
    requires Anchored(SlotOf(k, names(a)))
    ensures var id := names(a);
            var rep := RunUntilFailure(k, ApplyPlan(id, id.iface in k.ifaces, targets), oracle, at);
            && Anchored(SlotOf(rep.kernel, id)) && forall i :: 0 <= i < |rep.trail| ==>
                 Anchored(SlotOf(rep.trail[i], id))
  {
    var id := names(a);
    var tail := DeviceSteps(id) + RouteSteps(id, targets);
    if id.iface in k.ifaces {
      assert [] + DeviceSteps(id) + RouteSteps(id, targets) == tail;
      BuildingKeepsInterface(k, tail, oracle, at, id.iface);
    } else {
      var plan := ApplyPlan(id, false, targets);
      assert plan[0] == LinkAdd(id.iface) && plan[1..] == tail;
      var r := Answer(k, plan[0], oracle(at));
      if !r.Refused? {
        BuildingKeepsInterface(After(k, plan[0], r), tail, oracle, at + 1, id.iface);
      }
    }
  }

  // ---------------------------------------------------------------- a completed apply

  lemma {:induction false} PlansJoin(k: Kernel, p: seq<Command>, q: seq<Command>, oracle: Oracle, at: nat)
    requires RunUntilFailure(k, p + q, oracle, at).ok
    ensures var mid := RunUntilFailure(k, p, oracle, at);
            mid.ok && RunUntilFailure(mid.kernel, q, oracle, at + |p|) ==
                Report(RunUntilFailure(k, p + q, oracle, at).kernel, true,
                    RunUntilFailure(mid.kernel, q, oracle, at + |p|).trail)
    decreases |p|
  {
    if p == [] {
      assert p + q == q;
    } else {
      assert (p + q)[0] == p[0] && (p + q)[1..] == p[1..] + q;
      PlansJoin(After(k, p[0], Answer(k, p[0], oracle(at))), p[1..], q, oracle, at + 1);
    }
  }

  lemma {:induction false} DeviceStepsChangeNothing(k: Kernel, plan: seq<Command>, oracle: Oracle, at: nat)
    requires forall c :: c in plan ==> c.Device?
    ensures RunUntilFailure(k, plan, oracle, at).kernel == k
    decreases |plan|
  {
    if plan != [] {
      assert plan[0].Device?;
      DeviceStepsChangeNothing(k, plan[1..], oracle, at + 1);
    }
  }

  lemma {:induction false} ThrowsAccumulate(k: Kernel, id: SlotIdentity, targets: seq<string>, oracle: Oracle, at: nat)
    requires RunUntilFailure(k, ThrowSteps(id, targets), oracle, at).ok
    ensures var k' := RunUntilFailure(k, ThrowSteps(id, targets), oracle, at).kernel;
            && k'.ifaces == k.ifaces && k'.rules == k.rules && k'.defaults == k.defaults
            && ThrowsOf(k', id.routeTable) == ThrowsOf(k, id.routeTable) + Elements(targets)
    decreases |targets|
  {
    if targets != [] {
      var plan := ThrowSteps(id, targets);
      assert plan[1..] == ThrowSteps(id, targets[1..]);
      ThrowsAccumulate(After(k, plan[0], Answer(k, plan[0], oracle(at))), id, targets[1..], oracle, at + 1);
      assert Elements(targets) == {targets[0]} + Elements(targets[1..]);
    }
  }

  /** The routes and the rule in place: default through the interface, exactly these throw targets. */
  predicate Programmed(s: SlotState, id: SlotIdentity, targets: set<string>) {
    s.iface && s.rule && s.default == Some(id.iface) && s.throws == targets
  }

  /** The default route is set through the interface and old throw routes are gone. */
  lemma HeadRuns(k: Kernel, id: SlotIdentity, oracle: Oracle, at: nat)
    requires RunUntilFailure(k, [RouteDefault(id.iface, id.routeTable), FlushThrows(id.routeTable)], oracle, at).ok
    ensures var k1 := RunUntilFailure(k, [RouteDefault(id.iface, id.routeTable), FlushThrows(id.routeTable)], oracle,
            at).kernel;
            && id.iface in k1.ifaces && id.routeTable in k1.defaults && k1.defaults[id.routeTable] == id.iface
            && ThrowsOf(k1, id.routeTable) == {}
  {
    var head := [RouteDefault(id.iface, id.routeTable), FlushThrows(id.routeTable)];
    var ka := After(k, head[0], Answer(k, head[0], oracle(at)));
    var kb := After(ka, head[1], Answer(ka, head[1], oracle(at + 1)));
    assert head[1..] == [head[1]] && head[1..][1..] == [];
    assert RunUntilFailure(kb, [], oracle, at + 2).kernel == kb;
    assert RunUntilFailure(ka, [head[1]], oracle, at + 1).kernel == kb;
  }

  lemma RoutesProgram(k: Kernel, id: SlotIdentity, targets: seq<string>, oracle: Oracle, at: nat)
    requires RunUntilFailure(k, RouteSteps(id, targets), oracle, at).ok
    ensures Programmed(SlotOf(RunUntilFailure(k, RouteSteps(id, targets), oracle, at).kernel, id), id,
            Elements(targets))
  {
    var head, rule := [RouteDefault(id.iface, id.routeTable), FlushThrows(id.routeTable)], [RuleAdd(RuleOf(id))];
    PlansJoin(k, head + ThrowSteps(id, targets), rule, oracle, at);
    PlansJoin(k, head, ThrowSteps(id, targets), oracle, at);
    var k1 := RunUntilFailure(k, head, oracle, at).kernel;
    HeadRuns(k, id, oracle, at);
    ThrowsAccumulate(k1, id, targets, oracle, at + 2);
    assert rule[1..] == [];
  }

  /** An apply whose every step went well leaves the slot fully programmed, whatever it started from. */
  lemma CompletedApplyPrograms(k: Kernel, id: SlotIdentity, targets: seq<string>, oracle: Oracle, at: nat)
    requires RunUntilFailure(k, ApplyPlan(id, id.iface in k.ifaces, targets), oracle, at).ok
    ensures Programmed(SlotOf(RunUntilFailure(k, ApplyPlan(id, id.iface in k.ifaces, targets), oracle, at).kernel, id),
            id, Elements(targets))
  {
    var head := (if id.iface in k.ifaces then [] else [LinkAdd(id.iface)]) + DeviceSteps(id);
    PlansJoin(k, head, RouteSteps(id, targets), oracle, at);
    RoutesProgram(RunUntilFailure(k, head, oracle, at).kernel, id, targets, oracle, at + |head|);
  }

  // ---------------------------------------------------------------- the teardown plan

  /** slotTeardownSteps: the rule before its routes, the routes before the interface. */
  function TeardownPlan(id: SlotIdentity): seq<Command> {
    [RuleDel(RuleOf(id)), FlushTable(id.routeTable), LinkDel(id.iface)]
  }

  lemma TeardownSteps(k: Kernel, id: SlotIdentity, oracle: Oracle, at: nat)
    ensures var plan := TeardownPlan(id);
            var r0 := Answer(k, plan[0], oracle(at));
            var k1 := After(k, plan[0], r0);
            var r1 := Answer(k1, plan[1], oracle(at + 1));
            var k2 := After(k1, plan[1], r1);
            var r2 := Answer(k2, plan[2], oracle(at + 2));
            var k3 := After(k2, plan[2], r2);
            && RunAll(k, plan, oracle, at) == Report(k3, !r0.Refused? && !r1.Refused? && !r2.Refused?, [k1, k2, k3])
            && RunUntilFailure(k, plan, oracle, at) ==
               if r0.Refused? then Report(k1, false, [k1]) else if r1.Refused? then Report(k2, false, [k1, k2])
                   else Report(k3, !r2.Refused?, [k1, k2, k3])
  {
    var plan := TeardownPlan(id);
    assert plan[1..] == [plan[1], plan[2]] && plan[1..][1..] == [plan[2]] && plan[1..][1..][1..] == [];
    var k1 := After(k, plan[0], Answer(k, plan[0], oracle(at)));
    var k2 := After(k1, plan[1], Answer(k1, plan[1], oracle(at + 1)));
    var r2 := Answer(k2, plan[2], oracle(at + 2));
    var k3 := After(k2, plan[2], r2);
    assert RunAll(k2, [plan[2]], oracle, at + 2) == Report(k3, !r2.Refused?, [k3]);
    assert RunUntilFailure(k2, [plan[2]], oracle, at + 2) == Report(k3, !r2.Refused?, [k3]);
    assert RunAll(k1, plan[1..], oracle, at + 1).trail == [k2, k3];
  }

  /** Up to and including its first refusal, a sweep passes through the same states as a run that would stop there. */
  lemma {:induction false} SweepStartsAlike(k: Kernel, plan: seq<Command>, oracle: Oracle, at: nat)
    ensures RunUntilFailure(k, plan, oracle, at).trail <= RunAll(k, plan, oracle, at).trail
    ensures RunAll(k, plan, oracle, at).ok == RunUntilFailure(k, plan, oracle, at).ok
    ensures RunAll(k, plan, oracle, at).ok ==> RunAll(k, plan, oracle, at) == RunUntilFailure(k, plan, oracle, at)
    decreases |plan|
  {
    if plan != [] {
      SweepStartsAlike(After(k, plan[0], Answer(k, plan[0], oracle(at))), plan[1..], oracle, at + 1);
    }
  }

  /** While its steps go well, and at the first that does not, a teardown leaves no rule or route without interface. */
  lemma TeardownStaysAnchored(names: Names, k: Kernel, a: Owner, oracle: Oracle, at: nat)
    requires Distinct(names) && Wired(names, k) && AllAnchored(names, k)
    ensures var rep := RunUntilFailure(k, TeardownPlan(names(a)), oracle, at);
            forall i :: 0 <= i < |rep.trail| ==>
                AllAnchored(names, rep.trail[i]) && Elsewhere(names, a, k, rep.trail[i])
  {
    var plan := TeardownPlan(names(a));
    var rep := RunUntilFailure(k, plan, oracle, at);
    PlanElsewhere(names, k, plan, oracle, at, a);
    TeardownSteps(k, names(a), oracle, at);
    assert Anchored(SlotOf(k, names(a)));
    forall i | 0 <= i < |rep.trail| ensures AllAnchored(names, rep.trail[i]) {
      ElsewhereAnchored(names, a, k, rep.trail[i]);
    }
  }

  /** A teardown that reports no error leaves nothing of the slot; whatever it reports, it adds nothing. */
  lemma TeardownRemoves(k: Kernel, id: SlotIdentity, oracle: Oracle, at: nat)
    ensures var rep := RunAll(k, TeardownPlan(id), oracle, at);
            var s, s' := SlotOf(k, id), SlotOf(rep.kernel, id);
            && (rep.ok ==> !Present(s'))
            && (s'.iface ==> s.iface) && (s'.rule ==> s.rule) && (Routed(s') ==> Routed(s))
  {
    TeardownSteps(k, id, oracle, at);
  }

  /** Past a refused step the order no longer protects: a rule that could not be deleted outlives its interface. */
  lemma RefusedRuleDeleteOrphans(id: SlotIdentity)
    ensures var k := Kernel({id.iface}, {RuleOf(id)}, map[], map[], {});
            var oracle := (n: nat) => if n == 0 then Refused(false) else if n == 1 then Nothing else Ran;
            Anchored(SlotOf(k, id)) && !Anchored(SlotOf(RunAll(k, TeardownPlan(id), oracle, 0).kernel, id))
  {
    var k := Kernel({id.iface}, {RuleOf(id)}, map[], map[], {});
    var oracle := (n: nat) => if n == 0 then Refused(false) else if n == 1 then Nothing else Ran;
    TeardownSteps(k, id, oracle, 0);
  }

  predicate Took(r: Reply) { r.Ran? || (r.Refused? && r.took) }

  /** Exactly when a sweep that goes on past refusals leaves the slot without an anchor. */
  lemma SweepAnchoredIff(k: Kernel, id: SlotIdentity, oracle: Oracle, at: nat)
    requires Anchored(SlotOf(k, id)) && (SlotOf(k, id).default.Some? ==> SlotOf(k, id).default.value == id.iface)
    ensures var s, plan := SlotOf(k, id), TeardownPlan(id);
            var r0 := Answer(k, plan[0], oracle(at));
            var k1 := After(k, plan[0], r0);
            var r1 := Answer(k1, plan[1], oracle(at + 1));
            var r2 := Answer(After(k1, plan[1], r1), plan[2], oracle(at + 2));
            Anchored(SlotOf(RunAll(k, plan, oracle, at).kernel, id)) <==>
            !(s.iface && Took(r2) && ((s.rule && !Took(r0)) || (s.throws != {} && !Took(r1))))
  {
    TeardownSteps(k, id, oracle, at);
  }

  /** After a crash in an anchored state, the interfaces alone tell which slots of a Gateway left anything behind. */
  lemma InterfacesTellLeftovers(k: Kernel, g: LinkID, links: seq<string>, s: Slot)
    requires AllAnchored(RealNames(), k) && forall n :: n in links <==> n in k.ifaces
    ensures Owned(links, g, s) <==> Present(SlotOf(k, RealNames()((g, s))))
  {
    assert Anchored(SlotOf(k, RealNames()((g, s))));
  }
}
