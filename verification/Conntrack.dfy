/** Conntrack deletions after a ruleset change: internal/link/apply.go. */
module Conntrack {
  import opened Text

  datatype Forward = Forward(name: string, protocol: string, publicPort: nat, target: string, targetPort: nat)

  datatype Tuple = Tuple(protocol: string, publicPort: nat, target: string, targetPort: nat)

  datatype Port = Port(protocol: string, port: nat)

  function TupleOf(f: Forward): Tuple { Tuple(f.protocol, f.publicPort, f.target, f.targetPort) }

  function PortOf(f: Forward): Port { Port(f.protocol, f.publicPort) }

  ghost predicate Carries(forwards: seq<Forward>, t: Tuple) {
    exists i :: 0 <= i < |forwards| && TupleOf(forwards[i]) == t
  }

  ghost predicate Opens(forwards: seq<Forward>, p: Port) { exists i :: 0 <= i < |forwards| && PortOf(forwards[i]) == p }

  /** Where in `previous` each deletion comes from: ascending, the first occurrence of its tuple. */
  ghost predicate InOrder(previous: seq<Forward>, tuples: seq<Tuple>, from: seq<nat>) {
    && |from| == |tuples|
    && (forall i, j :: 0 <= i < j < |from| ==> from[i] < from[j])
    && (forall i :: 0 <= i < |from| ==> from[i] < |previous| && TupleOf(previous[from[i]]) == tuples[i])
    && (forall i, k :: 0 <= i < |from| && 0 <= k < from[i] ==> TupleOf(previous[k]) != tuples[i])
  }

  /** One deletion per tuple of `previous` that `current` lacks, in the order of `previous`. */
  method FlushTuples(previous: seq<Forward>, current: seq<Forward>) returns (tuples: seq<Tuple>)
    ensures forall t :: t in tuples <==> Carries(previous, t) && !Carries(current, t)
    ensures forall i, j :: 0 <= i < j < |tuples| ==> tuples[i] != tuples[j]
    ensures exists from :: InOrder(previous, tuples, from)
  {
    var present: set<Tuple> := {};
    for i := 0 to |current|
      invariant forall t :: t in present <==> exists k :: 0 <= k < i && TupleOf(current[k]) == t
    {
      present := present + {TupleOf(current[i])};
    }
    var seen: set<Tuple> := {};
    tuples := [];
    ghost var from: seq<nat> := [];
    for i := 0 to |previous|
      invariant forall t :: t in seen <==> t in tuples
      invariant forall t :: t in tuples ==> Carries(previous, t) && t !in present
      invariant forall k :: 0 <= k < i && TupleOf(previous[k]) !in present ==> TupleOf(previous[k]) in tuples
      invariant forall k, l :: 0 <= k < l < |tuples| ==> tuples[k] != tuples[l]
      invariant InOrder(previous, tuples, from) && forall k :: 0 <= k < |from| ==> from[k] < i
    {
      var t := TupleOf(previous[i]);
      if t !in present && t !in seen {
        seen := seen + {t};
        tuples, from := tuples + [t], from + [i];
      }
    }
  }

  /** Deletions for the hairpin: the ports not already installed at this very address. */
  method HairpinPorts(address: string, previousAddress: string, previous: seq<Forward>,
                      current: seq<Forward>) returns (ports: seq<Port>)
    ensures forall p :: p in ports <==>
            address != "" && Opens(current, p) && !(address == previousAddress && Opens(previous, p))
  {
    ports := [];
    if address == "" {
      return;
    }
    var installed: set<Port> := {};
    if address == previousAddress {
      for i := 0 to |previous|
        invariant forall p :: p in installed <==> exists k :: 0 <= k < i && PortOf(previous[k]) == p
      {
        installed := installed + {PortOf(previous[i])};
      }
    }
    for i := 0 to |current|
      invariant forall p :: p in ports <==> p !in installed && exists k :: 0 <= k < i && PortOf(current[k]) == p
    {
      if PortOf(current[i]) !in installed {
        ports := ports + [PortOf(current[i])];
      }
    }
  }

  // ---------------------------------------------------------------- over a process's life

  /** What reaches the node, in order. */
  datatype Event = Load(forwards: seq<Forward>) | Flush(tuple: Tuple) | Hairpin(address: string, port: Port) | Term
      | Unloaded

  /** A completed apply: its ruleset, the flushes, and on a Local node the hairpin deletions. */
  ghost predicate CompletedApply(previous: seq<Forward>, previousAddress: string, current: seq<Forward>,
                                 address: string, local: bool, events: seq<Event>) {
    && |events| > 0 && events[0] == Load(current)
    && (forall t :: Flush(t) in events <==> Carries(previous, t) && !Carries(current, t))
    && (forall a, p :: Hairpin(a, p) in events <==>
          local && a == address && address != "" && Opens(current, p)
              && !(address == previousAddress && Opens(previous, p)))
    && (forall i :: 0 < i < |events| ==> events[i].Flush? || events[i].Hairpin?)
  }

  /** What the data plane remembers: the forwards of the last completed apply and this term's address. */
  datatype Memory = Memory(forwards: seq<Forward>, address: string)

  datatype Step =
    | Apply(current: seq<Forward>, address: string, events: seq<Event>)
    | Nothing                                  // an apply that never reached its ruleset, a standby pass
    | Unload                                   // a step-down that deletes the ruleset; it flushes and forgets nothing
    | StartLeading

  ghost predicate StepOk(local: bool, m: Memory, s: Step) {
    s.Apply? ==> CompletedApply(m.forwards, m.address, s.current, s.address, local, s.events)
  }

  function Next(m: Memory, s: Step): Memory {
    match s
    case Apply(current, address, _) => Memory(current, address)
    case Nothing => m
    case Unload => m
    case StartLeading => m.(address := "")
  }

  function EventsOf(s: Step): seq<Event> {
    match s
    case Apply(_, _, events) => events
    case Nothing => []
    case Unload => [Unloaded]
    case StartLeading => [Term]
  }

  function MemoryAfter(steps: seq<Step>): Memory {
    if steps == [] then Memory([], "") else Next(MemoryAfter(steps[..|steps| - 1]), steps[|steps| - 1])
  }

  function Log(steps: seq<Step>): seq<Event> {
    if steps == [] then [] else Log(steps[..|steps| - 1]) + EventsOf(steps[|steps| - 1])
  }

  ghost predicate IsLife(local: bool, steps: seq<Step>) {
    forall i :: 0 <= i < |steps| ==> StepOk(local, MemoryAfter(steps[..i]), steps[i])
  }

  lemma LifePrefix(local: bool, steps: seq<Step>)
    requires IsLife(local, steps) && steps != []
    ensures IsLife(local, steps[..|steps| - 1]) && StepOk(local, MemoryAfter(steps[..|steps| - 1]), steps[|steps| - 1])
  {
    var init := steps[..|steps| - 1];
    forall i | 0 <= i < |init| ensures StepOk(local, MemoryAfter(init[..i]), init[i]) {
      assert init[..i] == steps[..i];
    }
  }

  /** Loaded at `i`, dropped by a later ruleset, and flushed after that one. */
  ghost predicate FlushedAfterDrop(log: seq<Event>, i: nat, t: Tuple) {
    exists d, f :: i < d < f < |log| && log[d].Load? && !Carries(log[d].forwards, t) && log[f] == Flush(t)
  }

  /** The forwards of the last ruleset that reached the node. */
  function LastLoaded(log: seq<Event>): seq<Forward> {
    if log == [] then []
    else if log[|log| - 1].Load? then log[|log| - 1].forwards
    else LastLoaded(log[..|log| - 1])
  }

  lemma {:induction false} LastLoadedJoin(log: seq<Event>, more: seq<Event>)
    ensures LastLoaded(log + more) == if exists i :: 0 <= i < |more| && more[i].Load? then LastLoaded(more)
            else LastLoaded(log)
    decreases |more|
  {
    if more == [] {
      assert log + more == log;
    } else {
      var init := more[..|more| - 1];
      assert (log + more)[..|log + more| - 1] == log + init;
      LastLoadedJoin(log, init);
    }
  }

  lemma {:induction false} LoadedFirst(events: seq<Event>)
    requires events != [] && events[0].Load? && forall i :: 0 < i < |events| ==> !events[i].Load?
    ensures LastLoaded(events) == events[0].forwards
  {
    if |events| > 1 { LoadedFirst(events[..|events| - 1]); }
  }

  /** What is remembered is what was loaded last. */
  lemma {:induction false} MemoryIsProgrammed(local: bool, steps: seq<Step>)
    requires IsLife(local, steps)
    ensures MemoryAfter(steps).forwards == LastLoaded(Log(steps))
  {
    if steps != [] {
      var last := steps[|steps| - 1];
      LifePrefix(local, steps);
      MemoryIsProgrammed(local, steps[..|steps| - 1]);
      LastLoadedJoin(Log(steps[..|steps| - 1]), EventsOf(last));
      if last.Apply? { LoadedFirst(last.events); }
    }
  }

  /** The forwards of the ruleset on the node: the last one loaded, none after a step-down deleted it. */
  function OnNode(log: seq<Event>): seq<Forward> {
    if log == [] then []
    else if log[|log| - 1].Load? then log[|log| - 1].forwards
    else if log[|log| - 1].Unloaded? then []
    else OnNode(log[..|log| - 1])
  }

  /** A step-down has deleted the ruleset and nothing was loaded since. */
  predicate IsUnloaded(log: seq<Event>) {
    log != [] && !log[|log| - 1].Load? && (log[|log| - 1].Unloaded? || IsUnloaded(log[..|log| - 1]))
  }

  lemma {:induction false} OnNodeIsLastLoaded(log: seq<Event>)
    ensures OnNode(log) == if IsUnloaded(log) then [] else LastLoaded(log)
  {
    if log != [] { OnNodeIsLastLoaded(log[..|log| - 1]); }
  }

  lemma FlushedStays(log: seq<Event>, more: seq<Event>, i: nat, t: Tuple)
    requires FlushedAfterDrop(log, i, t)
    ensures FlushedAfterDrop(log + more, i, t)
  {
    var d, f :| i < d < f < |log| && log[d].Load? && !Carries(log[d].forwards, t) && log[f] == Flush(t);
    assert (log + more)[d] == log[d] && (log + more)[f] == log[f];
  }

  /** A completed apply settles every tuple it drops. */
  lemma ApplyFlushes(m: Memory, s: Step, local: bool, log: seq<Event>, i: nat, t: Tuple)
    requires s.Apply? && StepOk(local, m, s) && i < |log| && Carries(m.forwards, t) && !Carries(s.current, t)
    ensures FlushedAfterDrop(log + s.events, i, t)
  {
    assert Flush(t) in s.events;
    var f :| 0 <= f < |s.events| && s.events[f] == Flush(t);
    var all := log + s.events;
    assert all[|log|] == s.events[0] && all[|log| + f] == s.events[f];
  }

  lemma {:induction false} RememberedOrFlushed(local: bool, steps: seq<Step>, i: nat, t: Tuple)
    requires IsLife(local, steps) && i < |Log(steps)| && Log(steps)[i].Load? && Carries(Log(steps)[i].forwards, t)
    ensures Carries(MemoryAfter(steps).forwards, t) || FlushedAfterDrop(Log(steps), i, t)
  {
    var init, last := steps[..|steps| - 1], steps[|steps| - 1];
    LifePrefix(local, steps);
    var m := MemoryAfter(init);
    if i >= |Log(init)| {
      assert Log(steps)[i] == EventsOf(last)[i - |Log(init)|];
    } else {
      RememberedOrFlushed(local, init, i, t);
      if !Carries(m.forwards, t) {
        FlushedStays(Log(init), EventsOf(last), i, t);
      } else if last.Apply? && !Carries(last.current, t) {
        ApplyFlushes(m, last, local, Log(init), i, t);
      }
    }
  }

  /**
   * Over any life in which every apply that reaches its ruleset completes: a tuple once loaded is in the ruleset on the
   * node, or was flushed after the ruleset that dropped it, or a step-down has deleted the ruleset and the tuple is
   * still remembered, for the next apply to flush.
   */
  lemma DroppedTuplesAreFlushed(local: bool, steps: seq<Step>, i: nat, t: Tuple)
    requires IsLife(local, steps) && i < |Log(steps)| && Log(steps)[i].Load? && Carries(Log(steps)[i].forwards, t)
    ensures || Carries(OnNode(Log(steps)), t) || FlushedAfterDrop(Log(steps), i, t)
            || (IsUnloaded(Log(steps)) && Carries(MemoryAfter(steps).forwards, t))
  {
    MemoryIsProgrammed(local, steps);
    OnNodeIsLastLoaded(Log(steps));
    RememberedOrFlushed(local, steps, i, t);
  }

  /**
   * Whatever happened in between, also a step-down: the next completed apply either carries the tuple again or flushes
   * it.
   */
  lemma NextApplySettles(local: bool, steps: seq<Step>, s: Step, i: nat, t: Tuple)
    requires IsLife(local, steps) && i < |Log(steps)| && Log(steps)[i].Load? && Carries(Log(steps)[i].forwards, t)
    requires s.Apply? && StepOk(local, MemoryAfter(steps), s)
    ensures Carries(s.current, t) || FlushedAfterDrop(Log(steps) + s.events, i, t)
  {
    RememberedOrFlushed(local, steps, i, t);
    if Carries(MemoryAfter(steps).forwards, t) && !Carries(s.current, t) {
      ApplyFlushes(MemoryAfter(steps), s, local, Log(steps), i, t);
    } else if !Carries(MemoryAfter(steps).forwards, t) {
      FlushedStays(Log(steps), s.events, i, t);
    }
  }

  lemma {:induction false} LastLoadAt(log: seq<Event>) returns (l: nat)
    requires LastLoaded(log) != []
    ensures l < |log| && log[l] == Load(LastLoaded(log)) && forall d :: l < d < |log| ==> !log[d].Load?
  {
    l := |log| - 1;
    if !log[l].Load? { l := LastLoadAt(log[..l]); }
  }

  /** Every tuple ever loaded is in the ruleset on the node or was flushed after the ruleset that dropped it. */
  ghost predicate AllSettled(log: seq<Event>) {
    forall i, t :: 0 <= i < |log| && log[i].Load? && Carries(log[i].forwards, t) ==>
        Carries(OnNode(log), t) || FlushedAfterDrop(log, i, t)
  }

  /**
   * Exactly when that holds, over any life in which every apply that reaches its ruleset completes: unless a step-down
   * has deleted a ruleset that was not empty and nothing was loaded since.
   */
  lemma AllSettledIff(local: bool, steps: seq<Step>)
    requires IsLife(local, steps)
    ensures AllSettled(Log(steps)) <==> !IsUnloaded(Log(steps)) || MemoryAfter(steps).forwards == []
  {
    var log, m := Log(steps), MemoryAfter(steps).forwards;
    if !IsUnloaded(log) || m == [] {
      forall i, t | 0 <= i < |log| && log[i].Load? && Carries(log[i].forwards, t)
        ensures Carries(OnNode(log), t) || FlushedAfterDrop(log, i, t)
      {
        DroppedTuplesAreFlushed(local, steps, i, t);
      }
    } else {
      MemoryIsProgrammed(local, steps);
      OnNodeIsLastLoaded(log);
      var l := LastLoadAt(log);
      assert Carries(log[l].forwards, TupleOf(m[0]));
      assert !FlushedAfterDrop(log, l, TupleOf(m[0]));
    }
  }

  /** After a step-down a tuple may be neither on the node nor flushed yet: the last case above does happen. */
  lemma StepDownLeavesFlows(f: Forward) returns (steps: seq<Step>)
    ensures IsLife(true, steps) && |Log(steps)| > 0 && Log(steps)[0] == Load([f])
    ensures !Carries(OnNode(Log(steps)), TupleOf(f)) && Flush(TupleOf(f)) !in Log(steps)
  {
    var load := Apply([f], "", [Load([f])]);
    steps := [load, Unload];
    assert steps[..0] == [] && steps[..1] == [load] && [load][..0] == [];
    assert MemoryAfter([]) == Memory([], "");
    assert Log([load]) == [Load([f])];
    assert Log(steps) == [Load([f]), Unloaded];
  }

  /** This term's completed applies at `address`: the ports the hairpin already covers. */
  function Installed(steps: seq<Step>, address: string): set<Port> {
    if steps == [] then {}
    else
      var init, last := steps[..|steps| - 1], steps[|steps| - 1];
      match last
      case StartLeading => {}
      case Nothing => Installed(init, address)
      case Unload => Installed(init, address)
      case Apply(current, a, _) => if a == address then set i | 0 <= i < |current| :: PortOf(current[i]) else {}
  }

  /** The remembered pair is exactly what this term's last completed apply installed. */
  lemma {:induction false} MemoryIsInstalled(local: bool, steps: seq<Step>, address: string, p: Port)
    requires IsLife(local, steps) && address != ""
    ensures p in Installed(steps, address) <==>
            address == MemoryAfter(steps).address && Opens(MemoryAfter(steps).forwards, p)
  {
    if steps != [] {
      LifePrefix(local, steps);
      MemoryIsInstalled(local, steps[..|steps| - 1], address, p);
    }
  }

  /** On a Local node an apply deletes hairpin flows for exactly the ports not already installed there this term. */
  lemma HairpinCoversNewPorts(steps: seq<Step>, s: Step, a: string, p: Port)
    requires IsLife(true, steps) && s.Apply? && StepOk(true, MemoryAfter(steps), s)
    ensures Hairpin(a, p) in s.events <==> a == s.address && a != "" && Opens(s.current, p) && p !in Installed(steps, a)
  {
    if a != "" { MemoryIsInstalled(true, steps, a, p); }
  }

  /** A new term starts the hairpin over: its first apply at an address deletes the flows of every open port. */
  lemma NewTermCoversAllPorts(steps: seq<Step>, s: Step, p: Port)
    requires IsLife(true, steps) && steps != [] && steps[|steps| - 1].StartLeading?
    requires s.Apply? && StepOk(true, MemoryAfter(steps), s)
    ensures Hairpin(s.address, p) in s.events <==> s.address != "" && Opens(s.current, p)
  {
    HairpinCoversNewPorts(steps, s, s.address, p);
  }
}
