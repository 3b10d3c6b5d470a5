/**
 * Hash-gated writes with a re-apply flag: dirtyTracker and applyObjectIfChanged in
 * internal/controller/gateway_controller.go.
 */
module Drift {
  import opened Text

  // ---------------------------------------------------------------- the flag

  datatype Flag = Unseen | Clean | Dirty

  /** dirtyTracker: a key it has never seen counts as dirty. */
  class DirtyTracker {
    var keys: map<string, bool>

    constructor ()
      ensures forall k :: FlagOf(k) == Unseen
    {
      keys := map[];
    }

    function FlagOf(key: string): Flag
      reads this
    {
      if key !in keys then Unseen else if keys[key] then Dirty else Clean
    }

    method Mark(key: string)
      modifies this
      ensures FlagOf(key) == Dirty && forall k :: k != key ==> FlagOf(k) == old(FlagOf(k))
    {
      keys := keys[key := true];
    }

    /** Whether the pass must re-apply; either way the flag is now clean. */
    method Take(key: string) returns (force: bool)
      modifies this
      ensures force <==> old(FlagOf(key)) != Clean
      ensures FlagOf(key) == Clean && forall k :: k != key ==> FlagOf(k) == old(FlagOf(k))
    {
      force := if key in keys then keys[key] else true;
      keys := keys[key := false];
    }

    method Forget(key: string)
      modifies this
      ensures FlagOf(key) == Unseen && forall k :: k != key ==> FlagOf(k) == old(FlagOf(k))
    {
      keys := keys - {key};
    }
  }

  // ---------------------------------------------------------------- one component's objects

  /** An object as it is on the server: what it says, and the hash stamped on it. */
  datatype Live = Live(content: string, stamp: string)

  /** A pass over the objects still to come; `desired` is fixed when it starts. */
  datatype Pass = Pass(force: bool, remaining: seq<string>, desired: map<string, string>)

  datatype State = State(live: map<string, Live>, undelivered: set<string>, flag: Flag, pass: Option<Pass>)

  /** The operator's hash, of which only injectivity is used. */
  type Hash = string -> string

  ghost predicate Injective(hash: Hash) { forall a, b :: hash(a) == hash(b) ==> a == b }

  datatype Write = Done | Lost | Refused

  datatype Action =
    | Edit(id: string, to: Option<Live>)          // anybody's change or deletion behind the operator's back
    | Deliver(id: string)                         // its watch event marks the Gateway
    | StartPass(order: seq<string>, desired: map<string, string>)
    | Visit(write: Write, readOk: bool)                // applyObjectIfChanged on the next object
    | EndPass
    | FailElsewhere                                    // another step of the pass fails
    | Restart
    | Forget                                           // the Gateway is gone

  ghost predicate Enabled(s: State, a: Action) {
    match a
    case Edit(_, _) => true
    case Deliver(o) => o in s.undelivered
    case StartPass(order, desired) => s.pass.None? && forall o :: o in desired <==> o in order
    case Visit(_, _) => s.pass.Some? && s.pass.value.remaining != []
        && s.pass.value.remaining[0] in s.pass.value.desired
    case EndPass => s.pass.Some? && s.pass.value.remaining == []
    case FailElsewhere => s.pass.Some?
    case Restart => true
    case Forget => s.pass.None?
  }

  /** The gate: skip an object whose stamp already matches, unless forced. */
  predicate Skips(live: map<string, Live>, o: string, want: string, force: bool, hash: Hash) {
    !force && o in live && live[o].stamp == hash(want)
  }

  /** A failing pass gives a taken flag back. */
  function Failed(s: State): State
    requires s.pass.Some?
  {
    s.(pass := None, flag := if s.pass.value.force then Dirty else s.flag)
  }

  function Visited(s: State, hash: Hash, write: Write, readOk: bool): State
    requires s.pass.Some? && s.pass.value.remaining != [] && s.pass.value.remaining[0] in s.pass.value.desired
  {
    var p := s.pass.value;
    var o := p.remaining[0];
    var want := p.desired[o];
    if !readOk then Failed(s)
    else if Skips(s.live, o, want, p.force, hash) then s.(pass := Some(p.(remaining := p.remaining[1..])))
    else
      var applied := s.live[o := Live(want, hash(want))];
      match write
      case Done => s.(live := applied, pass := Some(p.(remaining := p.remaining[1..])))
      case Lost => Failed(s).(live := applied)
      case Refused => Failed(s)
  }

  ghost function Next(s: State, hash: Hash, a: Action): State
    requires Enabled(s, a)
  {
    match a
    case Edit(o, to) => s.(live := if to.Some? then s.live[o := to.value]
        else s.live - {o}, undelivered := s.undelivered + {o})
    case Deliver(o) => s.(undelivered := s.undelivered - {o}, flag := Dirty)
    case StartPass(order, desired) => s.(flag := Clean, pass := Some(Pass(s.flag != Clean, order, desired)))
    case Visit(write, readOk) => Visited(s, hash, write, readOk)
    case EndPass => s.(pass := None)
    case FailElsewhere => Failed(s)
    case Restart => s.(flag := Unseen, pass := None, undelivered := {})
    case Forget => s.(flag := Unseen)
  }

  // ---------------------------------------------------------------- no drift is lost

  /** Its content is not what its stamp says. */
  ghost predicate Tampered(s: State, hash: Hash, o: string) {
    o in s.live && hash(s.live[o].content) != s.live[o].stamp
  }

  /** Something will still look at the object: its event, the flag, or a forced pass that has not reached it. */
  ghost predicate Watched(s: State, o: string) {
    || o in s.undelivered || s.flag != Clean
    || (s.pass.Some? && s.pass.value.force && o in s.pass.value.remaining)
  }

  /** What a forced pass has been over is as desired, or something happened to it since. */
  ghost predicate Repaired(s: State, hash: Hash, o: string, desired: map<string, string>) {
    (o in desired && o in s.live && s.live[o] == Live(desired[o], hash(desired[o]))) || o in s.undelivered
        || s.flag != Clean
  }

  /** `objects` are the component's; every pass covers them all. */
  ghost predicate Inv(s: State, hash: Hash, objects: set<string>) {
    && (forall o :: o in objects && Tampered(s, hash, o) ==> Watched(s, o))
    && (s.pass.Some? && s.pass.value.force ==>
          forall o :: o in objects && o !in s.pass.value.remaining ==> Repaired(s, hash, o, s.pass.value.desired))
  }

  ghost predicate Covers(a: Action, objects: set<string>) {
    a.StartPass? ==> forall o :: o in objects ==> o in a.desired
  }

  lemma VisitKeeps(s: State, hash: Hash, objects: set<string>, write: Write, readOk: bool)
    requires Inv(s, hash, objects) && Enabled(s, Visit(write, readOk))
    ensures Inv(Visited(s, hash, write, readOk), hash, objects)
  {
    var p := s.pass.value;
    var o, s' := p.remaining[0], Visited(s, hash, write, readOk);
    assert p.remaining == [o] + p.remaining[1..];
    forall x | x in objects && Tampered(s', hash, x) ensures Watched(s', x) {
      if s'.live == s.live || x != o {
        assert Tampered(s, hash, x);
        assert Watched(s, x);
      }
    }
  }

  lemma InvKept(s: State, hash: Hash, objects: set<string>, a: Action)
    requires Inv(s, hash, objects) && Enabled(s, a) && Covers(a, objects)
    ensures Inv(Next(s, hash, a), hash, objects)
  {
    if a.Visit? {
      VisitKeeps(s, hash, objects, a.write, a.readOk);
    } else {
      var s' := Next(s, hash, a);
      forall x | x in objects && Tampered(s', hash, x) ensures Watched(s', x) {
        if !(a.Edit? && a.id == x) {
          assert Tampered(s, hash, x);
          assert Watched(s, x);
        }
      }
    }
  }

  ghost predicate IsRun(hash: Hash, objects: set<string>, states: seq<State>, actions: seq<Action>) {
    && |states| == |actions| + 1 && states[0].flag.Unseen? && states[0].pass.None?
    && (forall i :: 0 <= i < |actions| ==>
          Enabled(states[i], actions[i]) && Covers(actions[i], objects)
              && states[i + 1] == Next(states[i], hash, actions[i]))
  }

  lemma {:induction false} RunKeepsInv(hash: Hash, objects: set<string>, states: seq<State>, actions: seq<Action>,
                                       i: nat)
    requires IsRun(hash, objects, states, actions) && i < |states|
    ensures Inv(states[i], hash, objects)
  {
    if i > 0 {
      RunKeepsInv(hash, objects, states, actions, i - 1);
      InvKept(states[i - 1], hash, objects, actions[i - 1]);
    }
  }

  /**
   * In every interleaving of edits, deliveries, passes, failures and restarts: an object that differs from a desired
   * form under that form's own hash still has its event coming, a dirty or unseen flag, or a forced pass due on it.
   */
  lemma NoLostDrift(hash: Hash, objects: set<string>, states: seq<State>, actions: seq<Action>, i: nat, o: string,
                    want: string)
    requires Injective(hash) && IsRun(hash, objects, states, actions) && i < |states| && o in objects
    requires o in states[i].live && states[i].live[o].content != want && states[i].live[o].stamp == hash(want)
    ensures Watched(states[i], o)
  {
    RunKeepsInv(hash, objects, states, actions, i);
    assert Tampered(states[i], hash, o);
  }

  /** A forced pass that completes leaves every object as desired, but for what was changed again under it. */
  lemma ForcedPassRepairs(hash: Hash, objects: set<string>, states: seq<State>, actions: seq<Action>, i: nat, o: string)
    requires IsRun(hash, objects, states, actions) && i < |actions| && actions[i].EndPass? && states[i].pass.value.force
             && o in objects
    ensures var desired := states[i].pass.value.desired; Repaired(states[i + 1], hash, o, desired)
  {
    RunKeepsInv(hash, objects, states, actions, i);
  }
}
