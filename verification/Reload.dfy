/**
 * The reload loop's memory of what it applied: the closure of watchAndReload in internal/link/reconcile.go, Local mode.
 */
module Reload {
  import opened Text
  import Endpoints

  /**
   * How an apply ends: before its ruleset is loaded; with the ruleset loaded but a slot down or a later step failed,
   * which the loop does not count as applied; or complete.
   */
  datatype Result = Stops | Loads | Completes

  /** One pass of the loop. `resolved` and `pending` come from the endpoint snapshot of the same config. */
  datatype Tick = Tick(loads: bool, names: seq<string>, pending: seq<string>, resolved: set<string>, config: string,
      ruleset: string,
                       renders: bool, endpointsKnown: bool, result: Result)

  /** What the snapshot guarantees: pending and resolved are disjoint parts of the configured forwards. */
  ghost predicate FromSnapshot(t: Tick) {
    (forall n :: n in t.pending ==> n in t.names) && (forall n :: n in t.resolved ==> n in t.names && n !in t.pending)
  }

  /** A pass over a snapshot of forwards with distinct names has that guarantee. */
  lemma SnapshotGives(forwards: seq<Endpoints.Forward>, caches: Endpoints.Key -> Endpoints.Cache, node: string,
                      isIP: string -> bool, s: Endpoints.Snapshot, t: Tick)
    requires Endpoints.Partitions(forwards, caches, node, isIP, s)
    requires forall f, g :: f in forwards && g in forwards && f.name == g.name ==> f == g
    requires forall n :: n in t.names <==> exists f :: f in forwards && f.name == n
    requires t.pending == s.pending && forall n :: n in t.resolved <==> n in Endpoints.ResolvedNames(s.resolved)
    ensures FromSnapshot(t)
  {
    forall n ensures (n in t.pending ==> n in t.names) && (n in t.resolved ==> n in t.names && n !in t.pending) {
      Endpoints.NamedWith(forwards, caches, node, isIP, 0, n);
      Endpoints.NamedWith(forwards, caches, node, isIP, 2, n);
    }
  }

  /** The loop's variables, and the forwards with a rule on the node. */
  datatype Loop = Loop(applied: Option<set<string>>, config: string, ruleset: string, rules: set<string>)

  function ForwardNames(names: seq<string>, pending: seq<string>): set<string> { set n | n in names && n !in pending }

  function Seeded(l: Loop, kept: bool, t: Tick): set<string> {
    if l.applied.Some? then l.applied.value else if kept then ForwardNames(t.names, []) else {}
  }

  /** A forward whose rule is in place is still being looked up: the pass must wait. */
  predicate MustWait(applied: set<string>, pending: seq<string>) { exists n :: n in pending && n in applied }

  /** The pass gets as far as calling the apply. */
  predicate Applies(l: Loop, kept: bool, t: Tick) {
    && t.loads && !MustWait(Seeded(l, kept, t), t.pending) && t.renders
    && (t.config != l.config || t.ruleset != l.ruleset) && t.endpointsKnown
  }

  function Next(l: Loop, kept: bool, t: Tick): Loop {
    if !t.loads then l
    else if Applies(l, kept, t) && t.result.Completes? then
        Loop(Some(ForwardNames(t.names, t.pending)), t.config, t.ruleset, t.resolved)
    else l.(applied := Some(Seeded(l, kept, t)), rules := RulesAfter(l, kept, t))
  }

  /** The rules on the node after a pass. */
  function RulesAfter(l: Loop, kept: bool, t: Tick): set<string> {
    if Applies(l, kept, t) && !t.result.Stops? then t.resolved else l.rules
  }

  /** The loop as it runs. */
  class ReloadLoop {
    const kept: bool
    var applied: Option<set<string>>
    var config: string
    var ruleset: string
    var rules: set<string>

    constructor (kept: bool, rules: set<string>)
      ensures this.kept == kept && Abstract() == Loop(None, "", "", rules)
    {
      this.kept, this.rules, applied, config, ruleset := kept, rules, None, "", "";
    }

    ghost function Abstract(): Loop
      reads this
    {
      Loop(applied, config, ruleset, rules)
    }

    static method NamesLess(names: seq<string>, pending: seq<string>) returns (r: set<string>)
      ensures r == ForwardNames(names, pending)
    {
      r := {};
      for i := 0 to |names|
        invariant r == ForwardNames(names[..i], pending)
      {
        assert names[..i + 1] == names[..i] + [names[i]];
        if names[i] !in pending {
          r := r + {names[i]};
        }
      }
      assert names[..|names|] == names;
    }

    method Pass(t: Tick)
      modifies this
      ensures Abstract() == Next(old(Abstract()), kept, t)
    {
      if !t.loads {
        return;
      }
      if applied.None? {
        var seed: set<string> := {};
        if kept {
          seed := NamesLess(t.names, []);
        }
        applied := Some(seed);
      }
      for i := 0 to |t.pending|
        invariant forall k :: 0 <= k < i ==> t.pending[k] !in applied.value
      {
        if t.pending[i] in applied.value {
          return;
        }
      }
      if !t.renders || (t.config == config && t.ruleset == ruleset) || !t.endpointsKnown || t.result.Stops? {
        return;
      }
      rules := t.resolved;
      if t.result.Loads? {
        return;
      }
      var names := NamesLess(t.names, t.pending);
      config, ruleset, applied := t.config, t.ruleset, Some(names);
    }
  }

  // ---------------------------------------------------------------- runs

  /**
   * A leadership term: `kept` when it took a plane over. A term that took none over may still find rules, left by a
   * fence that came back incomplete.
   */
  ghost predicate IsTerm(kept: bool, loops: seq<Loop>, ticks: seq<Tick>) {
    && |loops| == |ticks| + 1 && loops[0].applied.None?
    && (forall i :: 0 <= i < |ticks| ==> FromSnapshot(ticks[i]) && loops[i + 1] == Next(loops[i], kept, ticks[i]))
  }

  /** A configured forward's rule goes away while its endpoints are still being looked up. */
  predicate LosesPending(before: Loop, t: Tick, after: Loop, f: string) {
    f in before.rules && f !in after.rules && f in t.names && f in t.pending
  }

  /** Every rule on the node is remembered, once anything is. */
  ghost predicate Remembered(l: Loop) { l.applied.Some? ==> forall n :: n in l.rules ==> n in l.applied.value }

  /**
   * A pass that does not complete leaves no rule on the node beyond what the loop remembers: it matters for the first
   * config read over a kept plane, and for an apply that loads its ruleset without completing.
   */
  ghost predicate Fits(l: Loop, kept: bool, t: Tick) {
    t.loads && !(Applies(l, kept, t) && t.result.Completes?) ==> forall n :: n in RulesAfter(l, kept, t) ==>
        n in Seeded(l, kept, t)
  }

  lemma StepRemembers(l: Loop, kept: bool, t: Tick)
    requires Remembered(l) && FromSnapshot(t) && Fits(l, kept, t)
    ensures Remembered(Next(l, kept, t))
  {
    if t.loads && !(Applies(l, kept, t) && t.result.Completes?) {
      assert Next(l, kept, t).applied.value == Seeded(l, kept, t);
    }
  }

  /**
   * The loop knows what is on the node: it remembers it, or it will take it from the first config, or there is nothing.
   */
  ghost predicate Knows(l: Loop, kept: bool) {
    Remembered(l) && (l.applied.None? ==> kept || l.rules == {})
  }

  lemma StepKeepsPending(l: Loop, kept: bool, t: Tick, f: string)
    requires Knows(l, kept)
    ensures !LosesPending(l, t, Next(l, kept, t), f)
  {}

  lemma {:induction false} TermKnows(kept: bool, loops: seq<Loop>, ticks: seq<Tick>, b: nat, i: nat)
    requires IsTerm(kept, loops, ticks) && b <= i < |loops| && Knows(loops[b], kept)
    requires forall k :: b <= k < i ==> Fits(loops[k], kept, ticks[k])
    ensures Knows(loops[i], kept)
  {
    if b < i {
      TermKnows(kept, loops, ticks, b, i - 1);
      StepRemembers(loops[i - 1], kept, ticks[i - 1]);
    }
  }

  /**
   * From any point at which the loop knows the node on, a still-configured forward loses its rule only on evidence,
   * never while pending, as long as every pass in between fitted.
   */
  lemma RulesOutlastPending(kept: bool, loops: seq<Loop>, ticks: seq<Tick>, b: nat, i: nat, f: string)
    requires IsTerm(kept, loops, ticks) && b <= i < |ticks| && Knows(loops[b], kept)
    requires forall k :: b <= k < i ==> Fits(loops[k], kept, ticks[k])
    ensures !LosesPending(loops[i], ticks[i], loops[i + 1], f)
  {
    TermKnows(kept, loops, ticks, b, i);
    StepKeepsPending(loops[i], kept, ticks[i], f);
  }

  /**
   * Such a point is the start, unless rules were left behind unannounced, and the end of every apply that completes.
   */
  lemma WhenItKnows(kept: bool, loops: seq<Loop>, ticks: seq<Tick>, i: nat)
    requires IsTerm(kept, loops, ticks) && i < |ticks|
    ensures Knows(loops[0], kept) <==> kept || loops[0].rules == {}
    ensures Applies(loops[i], kept, ticks[i]) && ticks[i].result.Completes? ==> Knows(loops[i + 1], kept)
  {
    assert FromSnapshot(ticks[i]);
  }

  /** Where applies complete or stop before their ruleset, and nothing was on the node, every pass fits. */
  lemma {:induction false} CompletingTermFits(loops: seq<Loop>, ticks: seq<Tick>, i: nat)
    requires IsTerm(false, loops, ticks) && loops[0].rules == {} && i < |ticks| && forall k :: 0 <= k <= i ==>
             !ticks[k].result.Loads?
    ensures forall k :: 0 <= k <= i ==> Fits(loops[k], false, ticks[k])
  {
    if i > 0 { CompletingTermFits(loops, ticks, i - 1); }
    TermKnows(false, loops, ticks, 0, i);
  }

  /** With a plane taken over, they all do if and only if the first config read does. */
  lemma {:induction false} KeptTermFits(loops: seq<Loop>, ticks: seq<Tick>, first: nat, i: nat)
    requires IsTerm(true, loops, ticks) && first <= i < |ticks| && forall k :: 0 <= k <= i ==> !ticks[k].result.Loads?
    requires ticks[first].loads && forall k :: 0 <= k < first ==> !ticks[k].loads
    ensures (forall k :: 0 <= k <= i ==> Fits(loops[k], true, ticks[k])) <==> Fits(loops[first], true, ticks[first])
  {
    if Fits(loops[first], true, ticks[first]) {
      if first < i { KeptTermFits(loops, ticks, first, i - 1); }
      TermKnows(true, loops, ticks, 0, i);
      if first < i { RemembersOnwards(true, loops, ticks, first + 1, i); }
    }
  }

  lemma {:induction false} RemembersOnwards(kept: bool, loops: seq<Loop>, ticks: seq<Tick>, i: nat, j: nat)
    requires IsTerm(kept, loops, ticks) && 0 < i <= j < |loops| && ticks[i - 1].loads
    ensures loops[j].applied.Some?
  {
    if i < j { RemembersOnwards(kept, loops, ticks, i, j - 1); }
  }

  /**
   * The condition is exact in every state: some next pass can drop a pending forward's rule if and only if the loop
   * does not know the node.
   */
  lemma LossPossibleIff(l: Loop, kept: bool)
    ensures (exists t, f :: FromSnapshot(t) && LosesPending(l, t, Next(l, kept, t), f)) <==> !Knows(l, kept)
  {
    if !Knows(l, kept) {
      var f :| f in l.rules && (l.applied.Some? ==> f !in l.applied.value);
      var t := Dropping(l, f);
      assert f in t.names && f in t.pending;
      assert FromSnapshot(t) && LosesPending(l, t, Next(l, kept, t), f);
    } else {
      forall t, f | FromSnapshot(t) ensures !LosesPending(l, t, Next(l, kept, t), f) {
        StepKeepsPending(l, kept, t, f);
      }
    }
  }

  /** A config with only this forward, its endpoints still being looked up, applied in full. */
  function Dropping(l: Loop, f: string): Tick {
    Tick(true, [f], [f], {}, l.config + "'", l.ruleset, true, true, Completes)
  }
}
