/** This replica's node-global state in Local mode: internal/link/dataplane.go over applyConfig. */
module DataPlane {
  import opened Text
  import opened Identity
  import opened Node
  import opened Conntrack

  /** The node, answering each command as the oracle has it. */
  class Host {
    var kernel: Kernel
    var clock: nat
    const oracle: Oracle

    constructor (kernel: Kernel, oracle: Oracle)
      ensures this.kernel == kernel && this.oracle == oracle && clock == 0
    {
      this.kernel, this.oracle, clock := kernel, oracle, 0;
    }

    method Run(c: Command) returns (ok: bool)
      modifies this
      ensures var r := Answer(old(kernel), c, oracle(old(clock)));
              kernel == After(old(kernel), c, r) && ok == !r.Refused?
      ensures clock == old(clock) + 1
    {
      var r := Answer(kernel, c, oracle(clock));
      kernel, clock := After(kernel, c, r), clock + 1;
      return !r.Refused?;
    }

    /** runStep over a plan: the first failure ends it. */
    method RunPlan(plan: seq<Command>) returns (ok: bool)
      modifies this
      ensures var rep := RunUntilFailure(old(kernel), plan, oracle, old(clock)); kernel == rep.kernel && ok == rep.ok
    {
      var rest := plan;
      ghost var whole := RunUntilFailure(kernel, plan, oracle, clock);
      while rest != []
        invariant whole.kernel == RunUntilFailure(kernel, rest, oracle, clock).kernel
                  && whole.ok == RunUntilFailure(kernel, rest, oracle, clock).ok
        decreases |rest|
      {
        ok := Run(rest[0]);
        if !ok {
          return;
        }
        rest := rest[1..];
      }
      ok := true;
    }

    /** runTeardownStep over a plan: every step is tried, failures are collected. */
    method Sweep(plan: seq<Command>) returns (ok: bool)
      modifies this
      ensures var rep := RunAll(old(kernel), plan, oracle, old(clock)); kernel == rep.kernel && ok == rep.ok
    {
      var rest := plan;
      ghost var whole := RunAll(kernel, plan, oracle, clock);
      ok := true;
      while rest != []
        invariant whole.kernel == RunAll(kernel, rest, oracle, clock).kernel
                  && whole.ok == (ok && RunAll(kernel, rest, oracle, clock).ok)
        decreases |rest|
      {
        var fine := Run(rest[0]);
        ok := ok && fine;
        rest := rest[1..];
      }
    }
  }

  datatype SlotResult = SlotResult(slot: Slot, applied: bool)

  /** One accepted config as an apply meets it: which of its reads and clean-ups succeed is the environment's. */
  datatype Job = Job(peers: seq<Slot>, targets: seq<string>, forwards: seq<Forward>, address: string, renders: bool,
      inspects: set<Slot>, cleansUp: bool)

  ghost predicate DistinctSlots(peers: seq<Slot>) { forall i, j :: 0 <= i < j < |peers| ==> peers[i] != peers[j] }

  /** A slot is programmed: interface, rule and default route, whatever its throw routes. */
  predicate Serving(s: SlotState, id: SlotIdentity) { s.iface && s.rule && s.default == Some(id.iface) }

  ghost predicate Climbing(down: seq<Slot>) { forall i, j :: 0 <= i < j < |down| ==> down[i] < down[j] }

  lemma ClimbsOn(down: seq<Slot>, next: Slot)
    requires Climbing(down) && forall s :: s in down ==> s < next
    ensures Climbing(down + [next])
  {
    forall i | 0 <= i < |down| ensures down[i] < next { assert down[i] in down; }
  }

  /** What a sweep over the held slots outside `keep` does to node and books; `down` are the slots it failed on. */
  ghost predicate Swept(names: Names, id: LinkID, keep: set<Slot>, k: Kernel, slots: map<Slot, bool>, k': Kernel,
                        slots': map<Slot, bool>, down: seq<Slot>) {
    && Wired(names, k') && k'.tables == k.tables
    && (forall o: Owner :: o.0 != id || o.1 in keep || o.1 !in slots ==> SlotOf(k', names(o)) == SlotOf(k, names(o)))
    && (forall s: Slot :: s in slots' <==> s in slots && (s in keep || s in down))
    && (forall s: Slot :: s in slots' ==> slots'[s] == (s in keep && slots[s]))
    && (forall s: Slot :: s in slots && s !in slots' ==> !Present(SlotOf(k', names((id, s)))))
    && (forall s: Slot :: s in down ==> s in slots && s !in keep)
    && Climbing(down)
    && (down == [] && AllAnchored(names, k) ==> AllAnchored(names, k'))
  }

  /** Where a sweep stands after the slots below `i`. */
  ghost predicate Sweeping(names: Names, id: LinkID, i: nat, keep: set<Slot>, k: Kernel, slots: map<Slot, bool>,
                           k': Kernel, slots': map<Slot, bool>, down: seq<Slot>) {
    && Wired(names, k') && k'.tables == k.tables
    && (forall o: Owner :: o.0 != id || o.1 in keep || o.1 !in slots || o.1 >= i ==>
          SlotOf(k', names(o)) == SlotOf(k, names(o)))
    && (forall s: Slot :: s in slots' <==> s in slots && (s in keep || s in down || s >= i))
    && (forall s: Slot :: s in slots' ==> slots'[s] == ((s in keep || s >= i) && slots[s]))
    && (forall s: Slot :: s in slots && s !in slots' ==> !Present(SlotOf(k', names((id, s)))))
    && (forall s: Slot :: s in down ==> s < i && s in slots && s !in keep)
    && Climbing(down)
    && (down == [] && AllAnchored(names, k) ==> AllAnchored(names, k'))
  }

  lemma SlotGone(names: Names, id: LinkID, i: Slot, keep: set<Slot>, k: Kernel, held: map<Slot, bool>, k1: Kernel,
                 slots: map<Slot, bool>, down: seq<Slot>, k2: Kernel)
    requires Sweeping(names, id, i, keep, k, held, k1, slots, down) && i in slots && i !in keep
    requires Wired(names, k2) && Elsewhere(names, (id, i), k1, k2) && !Present(SlotOf(k2, names((id, i))))
    requires AllAnchored(names, k1) ==> AllAnchored(names, k2)
    ensures Sweeping(names, id, i + 1, keep, k, held, k2, slots - {i}, down)
  {}

  lemma SlotStuck(names: Names, id: LinkID, i: Slot, keep: set<Slot>, k: Kernel, held: map<Slot, bool>, k1: Kernel,
                  slots: map<Slot, bool>, down: seq<Slot>, k2: Kernel)
    requires Sweeping(names, id, i, keep, k, held, k1, slots, down) && i in slots && i !in keep
    requires Wired(names, k2) && Elsewhere(names, (id, i), k1, k2)
    ensures Sweeping(names, id, i + 1, keep, k, held, k2, slots[i := false], down + [i])
  {
    ClimbsOn(down, i);
  }

  lemma SlotSkipped(names: Names, id: LinkID, i: Slot, keep: set<Slot>, k: Kernel, held: map<Slot, bool>, k1: Kernel,
                    slots: map<Slot, bool>, down: seq<Slot>)
    requires Sweeping(names, id, i, keep, k, held, k1, slots, down) && (i !in slots || i in keep)
    ensures Sweeping(names, id, i + 1, keep, k, held, k1, slots, down)
  {}

  lemma SweepDone(names: Names, id: LinkID, keep: set<Slot>, k: Kernel, held: map<Slot, bool>, k1: Kernel,
                  slots: map<Slot, bool>, down: seq<Slot>)
    requires Sweeping(names, id, SLOT_COUNT, keep, k, held, k1, slots, down)
    ensures Swept(names, id, keep, k, held, k1, slots, down)
  {}

  /** What an apply does to the node; every slot it attempted is in `results`, in the config's order. */
  ghost predicate Attempted(names: Names, id: LinkID, table: string, job: Job, k: Kernel, k': Kernel,
                            results: seq<SlotResult>) {
    && Wired(names, k') && k.tables <= k'.tables
    && (forall o: Owner :: o.0 != id || o.1 !in job.peers ==> SlotOf(k', names(o)) == SlotOf(k, names(o)))
    && (if results == [] then forall o: Owner :: SlotOf(k', names(o)) == SlotOf(k, names(o))
        else |results| == |job.peers| && forall i :: 0 <= i < |results| ==> results[i].slot == job.peers[i])
    && (forall i :: 0 <= i < |results| && results[i].applied ==>
          table in k'.tables && Programmed(SlotOf(k', names((id, results[i].slot))), names((id, results[i].slot)),
              Elements(job.targets)))
    && (AllAnchored(names, k) ==> AllAnchored(names, k'))
  }

  /** The books after a pass: every attempted slot with its outcome, the others as they were. */
  ghost predicate Booked(before: map<Slot, bool>, results: seq<SlotResult>, after: map<Slot, bool>) {
    && (forall s :: s in after <==> s in before || exists i :: 0 <= i < |results| && results[i].slot == s)
    && (forall i :: 0 <= i < |results| ==> after[results[i].slot] == results[i].applied)
    && (forall s :: s in before && (forall i :: 0 <= i < |results| ==> results[i].slot != s) ==> after[s] == before[s])
  }

  /** record: every attempted slot is held, applied or not. */
  method Record(slots: map<Slot, bool>, results: seq<SlotResult>) returns (r: map<Slot, bool>)
    requires forall i, j :: 0 <= i < j < |results| ==> results[i].slot != results[j].slot
    ensures Booked(slots, results, r)
  {
    r := slots;
    for i := 0 to |results|
      invariant forall s :: s in r <==> s in slots || exists k :: 0 <= k < i && results[k].slot == s
      invariant forall k :: 0 <= k < i ==> r[results[k].slot] == results[k].applied
      invariant forall s :: s in slots && (forall k :: 0 <= k < i ==> results[k].slot != s) ==> r[s] == slots[s]
    {
      r := r[results[i].slot := results[i].applied];
    }
  }

  class Plane {
    const id: LinkID
    const names: Names
    const table: string
    const host: Host
    /** The slots this replica holds, each with whether its last pass ended applied. */
    var slots: map<Slot, bool>
    var otherHolder: bool
    var forwards: seq<Forward>
    var address: string

    constructor (id: LinkID, names: Names, table: string, host: Host)
      ensures this.id == id && this.names == names && this.table == table && this.host == host
      ensures slots == map[] && !otherHolder && forwards == [] && address == ""
    {
      this.id, this.names, this.table, this.host := id, names, table, host;
      slots, otherHolder, forwards, address := map[], false, [], "";
    }

    ghost function State(s: Slot): SlotState
      reads this, host
    {
      SlotOf(host.kernel, names((id, s)))
    }

    /** What the conntrack bookkeeping carries from one apply to the next. */
    ghost function Remembered(): Memory
      reads this
    {
      Memory(forwards, address)
    }

    /** Every slot with anything on the node is held, and every admitted slot is served under a loaded ruleset. */
    ghost predicate Valid()
      reads this, host
    {
      && Distinct(names) && Wired(names, host.kernel)
      && (forall s: Slot :: Present(State(s)) ==> s in slots)
      && (forall s: Slot :: s in slots && slots[s] ==> Serving(State(s), names((id, s))) && table in host.kernel.tables)
    }

    method ObserveOtherHolder()
      modifies this`otherHolder
      ensures otherHolder
    {
      otherHolder := true;
    }

    /** A new term forgets the other holder and the hairpin's address, not the programmed forwards. */
    method StartLeading()
      modifies this`otherHolder, this`address
      ensures !otherHolder && Remembered() == Next(old(Remembered()), Step.StartLeading)
    {
      otherHolder, address := false, "";
    }

    /** Start: hold every slot found by its interface. An anchored node is then covered whole. */
    method Hold(links: seq<string>)
      requires names == RealNames() && AllAnchored(names, host.kernel) && Wired(names, host.kernel) && slots == map[]
      requires forall n :: n in links <==> n in host.kernel.ifaces
      modifies this`slots
      ensures Valid() && forall s: Slot :: s in slots <==> Present(State(s))
      ensures forall s: Slot :: s in slots ==> !slots[s]
    {
      var found := InheritedSlots(links, id);
      for i := 0 to |found|
        invariant forall s: Slot :: s in slots <==> s in found[..i]
        invariant forall s: Slot :: s in slots ==> !slots[s]
      {
        assert found[i] in found;
        slots := slots[found[i] := false];
      }
      assert found[..|found|] == found;
      RealNamesDistinct();
      forall s: Slot ensures s in slots <==> Present(State(s)) {
        InterfacesTellLeftovers(host.kernel, id, links, s);
      }
    }

    method TeardownSlot(s: Slot) returns (ok: bool)
      requires Distinct(names) && Wired(names, host.kernel)
      modifies host
      ensures Wired(names, host.kernel) && Elsewhere(names, (id, s), old(host.kernel), host.kernel)
      ensures ok ==> !Present(State(s))
      ensures ok && old(AllAnchored(names, host.kernel)) ==> AllAnchored(names, host.kernel)
    {
      ghost var k, at := host.kernel, host.clock;
      ok := host.Sweep(TeardownPlan(names((id, s))));
      SweepElsewhere(names, k, TeardownPlan(names((id, s))), host.oracle, at, (id, s));
      TeardownRemoves(k, names((id, s)), host.oracle, at);
      if ok && AllAnchored(names, k) { ElsewhereAnchored(names, (id, s), k, host.kernel); }
    }

    /** Held slots outside `keep` come down in slot order; one that fails stays held, not admitted, for a later pass. */
    method TeardownSlots(keep: set<Slot>) returns (down: seq<Slot>)
      requires Distinct(names) && Wired(names, host.kernel)
      modifies this`slots, host
      ensures Swept(names, id, keep, old(host.kernel), old(slots), host.kernel, slots, down)
    {
      down := [];
      ghost var k, held := host.kernel, slots;
      for i: nat := 0 to SLOT_COUNT
        invariant Sweeping(names, id, i, keep, k, held, host.kernel, slots, down)
      {
        if i in slots && i !in keep {
          ghost var k1, before := host.kernel, slots;
          var ok := TeardownSlot(i);
          if ok {
            SlotGone(names, id, i, keep, k, held, k1, before, down, host.kernel);
            slots := slots - {i};
          } else {
            SlotStuck(names, id, i, keep, k, held, k1, before, down, host.kernel);
            slots, down := slots[i := false], down + [i];
          }
        } else {
          SlotSkipped(names, id, i, keep, k, held, host.kernel, slots, down);
        }
      }
      SweepDone(names, id, keep, k, held, host.kernel, slots, down);
    }

    /** One slot's plan, given whether its interface was there when the pass looked. */
    method ApplySlot(s: Slot, present: bool, targets: seq<string>) returns (ok: bool)
      requires Distinct(names) && Wired(names, host.kernel) && present == State(s).iface
      modifies host
      ensures Wired(names, host.kernel) && Elsewhere(names, (id, s), old(host.kernel), host.kernel)
      ensures ok ==> Programmed(State(s), names((id, s)), Elements(targets))
      ensures old(AllAnchored(names, host.kernel)) ==> AllAnchored(names, host.kernel)
    {
      ghost var k, at := host.kernel, host.clock;
      var plan := ApplyPlan(names((id, s)), present, targets);
      ok := host.RunPlan(plan);
      ApplyPlanIsOwn(names((id, s)), present, targets);
      PlanElsewhere(names, k, plan, host.oracle, at, (id, s));
      if ok { CompletedApplyPrograms(k, names((id, s)), targets, host.oracle, at); }
      if AllAnchored(names, k) { ApplyStaysAnchored(names, k, (id, s), targets, host.oracle, at); }
    }

    /** Which of the config's interfaces exist; a failing look ends the pass before anything is changed. */
    method LookAtInterfaces(job: Job) returns (present: Option<map<Slot, bool>>)
      ensures present.Some? <==> forall s :: s in job.peers ==> s in job.inspects
      ensures present.Some? ==> forall s :: s in job.peers ==> s in present.value && present.value[s] == State(s).iface
    {
      var found: map<Slot, bool> := map[];
      for i := 0 to |job.peers|
        invariant forall k :: 0 <= k < i ==> job.peers[k] in job.inspects
        invariant forall k :: 0 <= k < i ==> job.peers[k] in found
        invariant forall s :: s in found ==> found[s] == State(s).iface
      {
        if job.peers[i] !in job.inspects {
          assert job.peers[i] in job.peers;
          return None;
        }
        found := found[job.peers[i] := names((id, job.peers[i])).iface in host.kernel.ifaces];
      }
      return Some(found);
    }

    /** Every configured slot's plan in turn; a failing slot does not stop the others. */
    method ApplySlots(job: Job, present: map<Slot, bool>) returns (results: seq<SlotResult>)
      requires Distinct(names) && Wired(names, host.kernel) && DistinctSlots(job.peers)
      requires forall s :: s in job.peers ==> s in present && present[s] == State(s).iface
      modifies host
      ensures |results| == |job.peers| && forall i :: 0 <= i < |results| ==> results[i].slot == job.peers[i]
      ensures Wired(names, host.kernel) && host.kernel.tables == old(host.kernel.tables)
      ensures forall o: Owner :: o.0 != id || o.1 !in job.peers ==>
              SlotOf(host.kernel, names(o)) == SlotOf(old(host.kernel), names(o))
      ensures forall i :: 0 <= i < |results| && results[i].applied ==>
                Programmed(State(results[i].slot), names((id, results[i].slot)), Elements(job.targets))
      ensures old(AllAnchored(names, host.kernel)) ==> AllAnchored(names, host.kernel)
    {
      results := [];
      ghost var k := host.kernel;
      for i := 0 to |job.peers|
        invariant Wired(names, host.kernel) && host.kernel.tables == k.tables
        invariant |results| == i && forall j :: 0 <= j < i ==> results[j].slot == job.peers[j]
        invariant forall o: Owner :: o.0 != id || o.1 !in job.peers[..i] ==>
                  SlotOf(host.kernel, names(o)) == SlotOf(k, names(o))
        invariant forall j :: 0 <= j < i && results[j].applied ==>
                  Programmed(State(job.peers[j]), names((id, job.peers[j])), Elements(job.targets))
        invariant AllAnchored(names, k) ==> AllAnchored(names, host.kernel)
      {
        var s := job.peers[i];
        assert s !in job.peers[..i];
        var ok := ApplySlot(s, present[s], job.targets);
        results := results + [SlotResult(s, ok)];
        assert job.peers[..i + 1] == job.peers[..i] + [s];
      }
      assert job.peers[..|job.peers|] == job.peers;
    }

    /** unapplied: no slot of a pass whose ruleset failed is admitted. */
    static method Unapplied(results: seq<SlotResult>) returns (r: seq<SlotResult>)
      ensures |r| == |results| && forall i :: 0 <= i < |r| ==> r[i] == SlotResult(results[i].slot, false)
    {
      r := results;
      for i := 0 to |r|
        invariant |r| == |results|
        invariant forall k :: 0 <= k < i ==> r[k] == SlotResult(results[k].slot, false)
        invariant forall k :: i <= k < |r| ==> r[k] == results[k]
      {
        r := r[i := SlotResult(r[i].slot, false)];
      }
    }

    /** The deletions that follow a loaded ruleset; the first failure fails the apply. */
    method DeleteFlows(job: Job) returns (ok: bool, ghost events: seq<Event>)
      modifies host
      ensures host.kernel == old(host.kernel)
      ensures ok ==> CompletedApply(forwards, address, job.forwards, job.address, true, [Load(job.forwards)] + events)
    {
      events := [];
      var tuples := FlushTuples(forwards, job.forwards);
      for i := 0 to |tuples|
        invariant host.kernel == old(host.kernel)
        invariant |events| == i && forall k :: 0 <= k < i ==> events[k] == Flush(tuples[k])
      {
        ok := host.Run(Command.Conntrack);
        if !ok {
          return;
        }
        events := events + [Flush(tuples[i])];
      }
      var ports := HairpinPorts(job.address, address, forwards, job.forwards);
      for i := 0 to |ports|
        invariant host.kernel == old(host.kernel)
        invariant |events| == |tuples| + i && forall k :: 0 <= k < |tuples| ==> events[k] == Flush(tuples[k])
        invariant forall k :: 0 <= k < i ==> events[|tuples| + k] == Hairpin(job.address, ports[k])
      {
        ok := host.Run(Command.Conntrack);
        if !ok {
          return;
        }
        events := events + [Hairpin(job.address, ports[i])];
      }
      ok := true;
      DeletionsComplete(job, tuples, ports, events);
    }

    lemma DeletionsComplete(job: Job, tuples: seq<Tuple>, ports: seq<Port>, events: seq<Event>)
      requires |events| == |tuples| + |ports|
      requires forall k :: 0 <= k < |tuples| ==> events[k] == Flush(tuples[k])
      requires forall k :: 0 <= k < |ports| ==> events[|tuples| + k] == Hairpin(job.address, ports[k])
      requires forall t :: t in tuples <==> Carries(forwards, t) && !Carries(job.forwards, t)
      requires forall p :: p in ports <==>
               job.address != "" && Opens(job.forwards, p) && !(job.address == address && Opens(forwards, p))
      ensures CompletedApply(forwards, address, job.forwards, job.address, true, [Load(job.forwards)] + events)
    {
      var all := [Load(job.forwards)] + events;
      forall i | 0 < i < |all| ensures if i <= |tuples| then all[i] == Flush(tuples[i - 1])
          else all[i] == Hairpin(job.address, ports[i - 1 - |tuples|]) {
        if i > |tuples| { assert all[i] == events[|tuples| + (i - 1 - |tuples|)]; }
      }
      forall t ensures Flush(t) in all <==> t in tuples {
        if Flush(t) in all {
          var k :| 0 <= k < |all| && all[k] == Flush(t);
          assert 0 < k <= |tuples|;
        }
        if t in tuples {
          var k :| 0 <= k < |tuples| && tuples[k] == t;
          assert all[k + 1] == Flush(t);
        }
      }
      forall a, p ensures Hairpin(a, p) in all <==> a == job.address && p in ports {
        if a == job.address && p in ports {
          var k :| 0 <= k < |ports| && ports[k] == p;
          assert all[|tuples| + k + 1] == Hairpin(a, p);
        }
        if Hairpin(a, p) in all {
          var k :| 0 <= k < |all| && all[k] == Hairpin(a, p);
          assert k > |tuples| && ports[k - 1 - |tuples|] == p;
        }
      }
    }

    /** applyConfig: what it managed per slot, and whether the pass as a whole completed. */
    method ApplyConfig(job: Job) returns (results: seq<SlotResult>, ok: bool, ghost events: seq<Event>)
      requires Distinct(names) && Wired(names, host.kernel) && DistinctSlots(job.peers)
      modifies host
      ensures Attempted(names, id, table, job, old(host.kernel), host.kernel, results)
      ensures events == [] ==> host.kernel.tables == old(host.kernel.tables)
      ensures ok ==>
              CompletedApply(forwards, address, job.forwards, job.address, true, events) && table in host.kernel.tables
    {
      events := [];
      if !job.renders {
        return [], false, [];
      }
      var present := LookAtInterfaces(job);
      if present.None? {
        return [], false, [];
      }
      results := ApplySlots(job, present.value);
      ghost var k := host.kernel;
      ok := host.Run(LoadRuleset(table));
      RulesetTouchesNoSlot(names, k, table);
      if !ok {
        results := Unapplied(results);
        events := [Load(job.forwards)];
        return;
      }
      ok, events := DeleteFlows(job);
      events := [Load(job.forwards)] + events;
      ok := ok && job.cleansUp;
    }

    static lemma RulesetTouchesNoSlot(names: Names, k: Kernel, table: string)
      ensures forall o: Owner :: SlotOf(Effect(k, LoadRuleset(table)), names(o)) == SlotOf(k, names(o))
    {}

    /** The slots a config lists. */
    static function Configured(job: Job): set<Slot> { set s | s in job.peers }

    lemma SweptIsValid(keep: set<Slot>, k: Kernel, before: map<Slot, bool>, down: seq<Slot>)
      requires Distinct(names) && Wired(names, k) && Swept(names, id, keep, k, before, host.kernel, slots, down)
      requires forall s: Slot :: Present(SlotOf(k, names((id, s)))) ==> s in before
      requires forall s: Slot :: s in before && before[s] ==>
               Serving(SlotOf(k, names((id, s))), names((id, s))) && table in k.tables
      ensures Valid()
    {
      forall s: Slot | Present(State(s)) ensures s in slots {
      }
      forall s: Slot | s in slots && slots[s] ensures Serving(State(s), names((id, s))) && table in host.kernel.tables {
        assert s in keep && before[s];
      }
    }

    /** A leader's pass: departed slots come down, configured ones go up, and every one attempted is held. */
    method ApplyPass(job: Job) returns (results: seq<SlotResult>, departed: seq<Slot>, ok: bool,
                     ghost events: seq<Event>)
      requires Valid() && DistinctSlots(job.peers)
      modifies this`slots, this`forwards, this`address, host
      ensures Valid()
      ensures var step := Apply(job.forwards, job.address, events);
              if ok then StepOk(true, old(Remembered()), step) && Remembered() == Next(old(Remembered()), step)
              else Remembered() == old(Remembered())
      ensures forall s: Slot :: s in slots ==> s in job.peers || s in departed
      ensures forall i :: 0 <= i < |results| ==>
              results[i].slot in slots && slots[results[i].slot] == results[i].applied
      ensures forall i :: 0 <= i < |results| && results[i].applied ==>
                Programmed(State(results[i].slot), names((id, results[i].slot)), Elements(job.targets))
      ensures forall s: Slot :: s in departed ==> s in slots && s !in job.peers && !slots[s]
      ensures departed == [] && old(AllAnchored(names, host.kernel)) ==> AllAnchored(names, host.kernel)
      ensures forall o: Owner :: o.0 != id ==> SlotOf(host.kernel, names(o)) == SlotOf(old(host.kernel), names(o))
    {
      ghost var k, held := host.kernel, slots;
      departed := TeardownSlots(Configured(job));
      SweptIsValid(Configured(job), k, held, departed);
      ghost var k1, kept := host.kernel, slots;
      results, ok, events := AttemptAndRecord(job);
      BookedCoversConfig(job, k1, kept, results);
    }

    /** Slots the config does not list keep their entry, listed ones are the only new ones. */
    lemma BookedCoversConfig(job: Job, k: Kernel, before: map<Slot, bool>, results: seq<SlotResult>)
      requires Attempted(names, id, table, job, k, host.kernel, results) && Booked(before, results, slots)
      ensures forall s: Slot :: s in slots ==> s in job.peers || s in before
      ensures forall i :: 0 <= i < |results| ==>
              results[i].slot in slots && slots[results[i].slot] == results[i].applied
      ensures forall s: Slot :: s in before && s !in job.peers ==> s in slots && slots[s] == before[s]
    {
      forall i | 0 <= i < |results| ensures results[i].slot in job.peers { assert results[i].slot == job.peers[i]; }
    }

    /** The apply itself, with its outcome entered in the books. */
    method AttemptAndRecord(job: Job) returns (results: seq<SlotResult>, ok: bool, ghost events: seq<Event>)
      requires Valid() && DistinctSlots(job.peers)
      modifies this`slots, this`forwards, this`address, host
      ensures Valid() && Attempted(names, id, table, job, old(host.kernel), host.kernel, results)
      ensures var step := Apply(job.forwards, job.address, events);
              if ok then StepOk(true, old(Remembered()), step) && Remembered() == Next(old(Remembered()), step)
              else Remembered() == old(Remembered())
      ensures Booked(old(slots), results, slots)
    {
      ghost var k, kept := host.kernel, slots;
      results, ok, events := ApplyConfig(job);
      if ok {
        forwards, address := job.forwards, job.address;
      }
      slots := Record(slots, results);
      RecordIsValid(job, k, kept, results);
    }

    lemma RecordIsValid(job: Job, k: Kernel, before: map<Slot, bool>, results: seq<SlotResult>)
      requires Distinct(names) && DistinctSlots(job.peers) && Attempted(names, id, table, job, k, host.kernel, results)
      requires forall s: Slot :: Present(SlotOf(k, names((id, s)))) ==> s in before
      requires forall s: Slot :: s in before && before[s] ==>
               Serving(SlotOf(k, names((id, s))), names((id, s))) && table in k.tables
      requires Booked(before, results, slots)
      ensures Valid()
    {
      forall s: Slot ensures Present(State(s)) ==> s in slots
        ensures s in slots && slots[s] ==> Serving(State(s), names((id, s))) && table in host.kernel.tables
      {
        if i :| 0 <= i < |results| && results[i].slot == s {
          assert slots[s] == results[i].applied;
        } else {
          Unattempted(job, k, results, s);
        }
      }
    }

    lemma Unattempted(job: Job, k: Kernel, results: seq<SlotResult>, s: Slot)
      requires Attempted(names, id, table, job, k, host.kernel, results) && forall i :: 0 <= i < |results| ==>
               results[i].slot != s
      ensures SlotOf(host.kernel, names((id, s))) == SlotOf(k, names((id, s)))
    {
      assert results == [] || s !in job.peers;
    }

    /** A standby's pass: nothing while it leads or has not seen another holder; then everything held comes down. */
    method StandbyPass(leader: bool) returns (down: seq<Slot>)
      requires Valid()
      modifies this`slots, host
      ensures Valid()
      ensures leader || !otherHolder ==> host.kernel == old(host.kernel) && slots == old(slots) && down == []
      ensures !leader && otherHolder ==> Swept(names, id, {}, old(host.kernel), old(slots), host.kernel, slots, down)
    {
      if leader || !otherHolder {
        return [];
      }
      ghost var k, held := host.kernel, slots;
      down := TeardownSlots({});
      SweptIsValid({}, k, held, down);
    }

    method DeleteRuleset() returns (ok: bool)
      modifies host
      ensures forall o: Owner :: SlotOf(host.kernel, names(o)) == SlotOf(old(host.kernel), names(o))
      ensures ok ==> table !in host.kernel.tables
    {
      ok := host.Run(TableDel(table));
    }

    /** The ruleset first, then every held slot. Without an error nothing of the Gateway is left on the node. */
    method StepDown() returns (ok: bool)
      requires Valid()
      modifies this`slots, host
      ensures Valid()
      ensures ok ==> slots == map[] && table !in host.kernel.tables && forall s: Slot :: !Present(State(s))
      ensures ok && old(AllAnchored(names, host.kernel)) ==> AllAnchored(names, host.kernel)
      ensures forall s: Slot :: s in slots ==> s in old(slots) && !slots[s]
      ensures forall o: Owner :: o.0 != id ==> SlotOf(host.kernel, names(o)) == SlotOf(old(host.kernel), names(o))
    {
      ok := DeleteRuleset();
      ghost var k, held := host.kernel, slots;
      var down := TeardownSlots({});
      StepDownIsValid(k, held, down);
      if down == [] { assert slots == map[]; }
      ok := ok && down == [];
    }

    lemma StepDownIsValid(k: Kernel, before: map<Slot, bool>, down: seq<Slot>)
      requires Distinct(names) && Wired(names, k) && Swept(names, id, {}, k, before, host.kernel, slots, down)
      requires forall s: Slot :: Present(SlotOf(k, names((id, s)))) ==> s in before
      ensures Valid()
    {
      forall s: Slot | Present(State(s)) ensures s in slots {
      }
    }
  }
}
