/**
 * The Lease lock's acquisition gate: acquisitionLock in internal/link/election.go, for any number of concurrent
 * writers.
 */
module AcquisitionLock {

  /**
   * One Create or Update call. A write is admitted uncounted when it cannot be this cycle's first acquisition: the
   * cycle already holds the Lease, or the write names another holder.
   */
  datatype Writer =
    | Begun(own: bool)                        // past the isAcquired check with it unset, before the mutex
    | Counted                                 // in flight, to be waited for
    | Uncounted(own: bool)                    // in flight, not waited for
    | Wrote(counted: bool, own: bool, ok: bool)   // the API call is back, not yet observed
    | Observed(counted: bool)                 // acquired closed if it had to be, the count not yet given back
    | Over

  datatype Lock = Lock(acquired: bool, leaving: bool, inFlight: nat, writers: seq<Writer>)

  datatype Action =
    | Start(own: bool)
    | Admit(w: nat)
    | Return(w: nat, ok: bool)
    | Observe(w: nat)
    | Release(w: nat)
    | Leave

  function New(): Lock { Lock(false, false, 0, []) }

  predicate Holding(w: Writer) { w.Counted? || (w.Wrote? && w.counted) || (w.Observed? && w.counted) }

  predicate Enabled(l: Lock, a: Action) {
    match a
    case Start(_) => true
    case Admit(w) => w < |l.writers| && l.writers[w].Begun?
    case Return(w, _) => w < |l.writers| && (l.writers[w].Counted? || l.writers[w].Uncounted?)
    case Observe(w) => w < |l.writers| && l.writers[w].Wrote?
    case Release(w) => w < |l.writers| && l.writers[w].Observed?
    case Leave => true
  }

  function With(l: Lock, w: nat, next: Writer): Lock
    requires w < |l.writers|
  {
    l.(writers := l.writers[w := next])
  }

  function Next(l: Lock, a: Action): Lock
    requires Enabled(l, a)
  {
    match a
    case Start(own) => l.(writers := l.writers + [if l.acquired || !own then Uncounted(own) else Begun(own)])
    case Admit(w) =>
      if l.leaving then With(l, w, Over)
      else With(l, w, Counted).(inFlight := l.inFlight + 1)
    case Return(w, ok) =>
      With(l, w, Wrote(l.writers[w].Counted?, l.writers[w].Counted? || l.writers[w].own, ok))
    case Observe(w) =>
      var v := l.writers[w];
      With(l, w, Observed(v.counted)).(acquired := l.acquired || (v.ok && v.own))
    case Release(w) =>
      With(l, w, Over).(inFlight := if l.writers[w].counted && l.inFlight > 0 then l.inFlight - 1 else l.inFlight)
    case Leave => l.(leaving := true)
  }

  function CountHolding(writers: seq<Writer>): nat {
    if writers == [] then 0
    else CountHolding(writers[..|writers| - 1]) + (if Holding(writers[|writers| - 1]) then 1 else 0)
  }

  lemma {:induction false} CountAfterUpdate(writers: seq<Writer>, w: nat, next: Writer)
    requires w < |writers|
    ensures CountHolding(writers[w := next]) + (if Holding(writers[w]) then 1 else 0) ==
            CountHolding(writers) + (if Holding(next) then 1 else 0)
  {
    var init := writers[..|writers| - 1];
    if w == |writers| - 1 {
      assert writers[w := next][..|writers| - 1] == init;
    } else {
      CountAfterUpdate(init, w, next);
      assert writers[w := next][..|writers| - 1] == init[w := next];
    }
  }

  lemma {:induction false} NobodyHolds(writers: seq<Writer>, w: nat)
    requires CountHolding(writers) == 0 && w < |writers|
    ensures !Holding(writers[w])
  {
    if w < |writers| - 1 { NobodyHolds(writers[..|writers| - 1], w); }
  }

  predicate WriterOk(w: Writer, acquired: bool) {
    && (w.Uncounted? && w.own ==> acquired)
    && (w.Begun? ==> w.own)
    && (w.Wrote? && !w.counted && w.own ==> acquired)
  }

  /** The count is exact, and an uncounted write of this identity exists only once the cycle has acquired. */
  ghost predicate Inv(l: Lock) {
    && l.inFlight == CountHolding(l.writers)
    && (forall i :: 0 <= i < |l.writers| ==> WriterOk(l.writers[i], l.acquired))
  }

  lemma CountKept(l: Lock, a: Action)
    requires l.inFlight == CountHolding(l.writers) && Enabled(l, a)
    ensures Next(l, a).inFlight == CountHolding(Next(l, a).writers)
  {
    var l' := Next(l, a);
    if a.Start? {
      assert l'.writers[..|l'.writers| - 1] == l.writers;
    } else if !a.Leave? {
      CountAfterUpdate(l.writers, a.w, l'.writers[a.w]);
    }
  }

  lemma InvKept(l: Lock, a: Action)
    requires Inv(l) && Enabled(l, a)
    ensures Inv(Next(l, a))
  {
    CountKept(l, a);
    forall i | 0 <= i < |Next(l, a).writers| ensures WriterOk(Next(l, a).writers[i], Next(l, a).acquired) {
      assert i < |l.writers| ==> WriterOk(l.writers[i], l.acquired);
    }
  }

  ghost predicate IsRun(locks: seq<Lock>, actions: seq<Action>) {
    && |locks| == |actions| + 1 && locks[0] == New()
    && (forall i :: 0 <= i < |actions| ==> Enabled(locks[i], actions[i]) && locks[i + 1] == Next(locks[i], actions[i]))
  }

  lemma {:induction false} RunKeepsInv(locks: seq<Lock>, actions: seq<Action>, i: nat)
    requires IsRun(locks, actions) && i < |locks|
    ensures Inv(locks[i])
  {
    if i > 0 {
      RunKeepsInv(locks, actions, i - 1);
      InvKept(locks[i - 1], actions[i - 1]);
    }
  }

  /** Left and drained: what leave reports when its wait ends before its bound. */
  predicate Drained(l: Lock) { l.leaving && l.inFlight == 0 }

  lemma DrainedStays(l: Lock, a: Action)
    requires Inv(l) && Enabled(l, a) && Drained(l) && !l.acquired
    ensures Drained(Next(l, a)) && !Next(l, a).acquired
  {
    InvKept(l, a);
    if !a.Start? && !a.Leave? { NobodyHolds(l.writers, a.w); }
  }

  /**
   * Once drained without having acquired, a cycle never acquires, whatever calls are running or still come: the
   * answer isAcquired gives then is final.
   */
  lemma {:induction false} UnacquiredIsFinal(locks: seq<Lock>, actions: seq<Action>, i: nat, j: nat)
    requires IsRun(locks, actions) && i <= j < |locks| && Drained(locks[i]) && !locks[i].acquired
    ensures Drained(locks[j]) && !locks[j].acquired
  {
    if i < j {
      UnacquiredIsFinal(locks, actions, i, j - 1);
      RunKeepsInv(locks, actions, j - 1);
      DrainedStays(locks[j - 1], actions[j - 1]);
    }
  }

  // ---------------------------------------------------------------- when the answer is final

  /** A write this cycle may still acquire with: in flight and counted, or back with success and not yet observed. */
  predicate Threatens(w: Writer) { w.Counted? || (w.Wrote? && w.own && w.ok) }

  ghost predicate Threatened(l: Lock) { exists i :: 0 <= i < |l.writers| && Threatens(l.writers[i]) }

  ghost predicate Continues(l: Lock, locks: seq<Lock>, actions: seq<Action>) {
    && |locks| == |actions| + 1 && locks[0] == l
    && (forall i :: 0 <= i < |actions| ==> Enabled(locks[i], actions[i]) && locks[i + 1] == Next(locks[i], actions[i]))
  }

  /** Some continuation, with whatever further calls, ends acquired. */
  ghost predicate CanAcquire(l: Lock) {
    exists locks: seq<Lock>, actions: seq<Action> :: Continues(l, locks, actions) && locks[|locks| - 1].acquired
  }

  lemma SafeStays(l: Lock, a: Action)
    requires Inv(l) && Enabled(l, a) && l.leaving && !l.acquired && !Threatened(l)
    ensures var l' := Next(l, a); l'.leaving && !l'.acquired && !Threatened(l')
  {
    var l' := Next(l, a);
    forall i | 0 <= i < |l'.writers| ensures !Threatens(l'.writers[i]) {
      assert i < |l.writers| ==> !Threatens(l.writers[i]);
    }
  }

  lemma {:induction false} SafeForever(l: Lock, locks: seq<Lock>, actions: seq<Action>, i: nat)
    requires Inv(l) && l.leaving && !l.acquired && !Threatened(l) && Continues(l, locks, actions) && i < |locks|
    ensures Inv(locks[i]) && locks[i].leaving && !locks[i].acquired && !Threatened(locks[i])
  {
    if i > 0 {
      SafeForever(l, locks, actions, i - 1);
      InvKept(locks[i - 1], actions[i - 1]);
      SafeStays(locks[i - 1], actions[i - 1]);
    }
  }

  lemma ThreatComesTrue(l: Lock, w: nat) returns (locks: seq<Lock>, actions: seq<Action>)
    requires w < |l.writers| && Threatens(l.writers[w])
    ensures Continues(l, locks, actions) && locks[|locks| - 1].acquired
  {
    if l.writers[w].Counted? {
      var l1 := Next(l, Return(w, true));
      locks, actions := [l, l1, Next(l1, Observe(w))], [Return(w, true), Observe(w)];
    } else {
      locks, actions := [l, Next(l, Observe(w))], [Observe(w)];
    }
  }

  /**
   * The exact condition: a cycle that is leaving without having acquired can still acquire if and only if a counted
   * write is in flight, or a write for this identity is back with success. A write that failed is harmless, counted or
   * not.
   */
  lemma CanAcquireIff(locks: seq<Lock>, actions: seq<Action>, i: nat)
    requires IsRun(locks, actions) && i < |locks| && locks[i].leaving && !locks[i].acquired
    ensures CanAcquire(locks[i]) <==> Threatened(locks[i])
  {
    var l := locks[i];
    RunKeepsInv(locks, actions, i);
    if Threatened(l) {
      var w :| 0 <= w < |l.writers| && Threatens(l.writers[w]);
      var more, acts := ThreatComesTrue(l, w);
    } else if CanAcquire(l) {
      var more: seq<Lock>, acts: seq<Action> :| Continues(l, more, acts) && more[|more| - 1].acquired;
      SafeForever(l, more, acts, |more| - 1);
    }
  }

  /** A drained lock is never threatened. */
  lemma DrainedIsSafe(locks: seq<Lock>, actions: seq<Action>, i: nat)
    requires IsRun(locks, actions) && i < |locks| && Drained(locks[i]) && !locks[i].acquired
    ensures !Threatened(locks[i])
  {
    RunKeepsInv(locks, actions, i);
    forall w | 0 <= w < |locks[i].writers| ensures !Threatens(locks[i].writers[w]) {
      NobodyHolds(locks[i].writers, w);
    }
  }
}
