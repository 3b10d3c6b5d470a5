/** Who may contend, who must hand over, who keeps its plane: the decisions of internal/link/election.go on one view. */
module ElectionChoice {
  import opened Text
  import Election

  /** One reading of the election's inputs. A node without an entry scores 0. */
  datatype View = View(forwardCount: nat, live: set<string>, scores: map<string, nat>)

  function Score(v: View, n: string): nat { if n in v.scores then v.scores[n] else 0 }

  predicate Fit(v: View, n: string) { n in v.live && Score(v, n) == v.forwardCount }

  ghost predicate FitPeer(v: View, n: string) { exists p :: p in v.live && p != n && Score(v, p) == v.forwardCount }

  method HasFullyEligiblePeer(node: string, v: View) returns (r: bool)
    ensures r <==> FitPeer(v, node)
  {
    var rest := v.live;
    while rest != {}
      invariant rest <= v.live && forall p :: p in v.live && p !in rest ==> p == node || Score(v, p) != v.forwardCount
      decreases |rest|
    {
      var peer :| peer in rest;
      if peer != node && Score(v, peer) == v.forwardCount {
        return true;
      }
      rest := rest - {peer};
    }
    return false;
  }

  /** Higher score first, then the lower name. */
  predicate Better(v: View, a: string, b: string) {
    Score(v, a) > Score(v, b) || (Score(v, a) == Score(v, b) && Less(a, b))
  }

  /** Nobody among `node` and the live nodes is better. */
  ghost predicate IsBest(v: View, node: string, best: string) {
    (best == node || best in v.live) && forall p :: p == node || p in v.live ==> !Better(v, p, best)
  }

  lemma BetterIsTotal(v: View, a: string, b: string)
    ensures a == b || Better(v, a, b) || Better(v, b, a)
    ensures !(Better(v, a, b) && Better(v, b, a))
  {
    LessTotal(a, b);
  }

  lemma BetterIsTransitive(v: View, a: string, b: string, c: string)
    requires Better(v, a, b) && Better(v, b, c)
    ensures Better(v, a, c)
  {
    if Less(a, b) && Less(b, c) { LessTransitive(a, b, c); }
  }

  /** There is one best node: the order the map is walked in cannot matter. */
  lemma BestIsUnique(v: View, node: string, a: string, b: string)
    requires IsBest(v, node, a) && IsBest(v, node, b)
    ensures a == b
  {
    BetterIsTotal(v, a, b);
  }

  /** The loop over live nodes, in any order. */
  method BestNode(node: string, v: View) returns (best: string)
    ensures IsBest(v, node, best)
  {
    best := node;
    LessTotal(node, node);
    var rest := v.live;
    while rest != {}
      invariant rest <= v.live && (best == node || best in v.live)
      invariant !Better(v, node, best) && forall p :: p in v.live && p !in rest ==> !Better(v, p, best)
      decreases |rest|
    {
      var peer :| peer in rest;
      rest := rest - {peer};
      if peer != node && Better(v, peer, best) {
        Overtaken(v, node, rest, best, peer);
        best := peer;
      }
    }
  }

  lemma Overtaken(v: View, node: string, rest: set<string>, best: string, peer: string)
    requires Better(v, peer, best) && !Better(v, node, best)
    requires forall p :: p in v.live && p !in rest && p != peer ==> !Better(v, p, best)
    ensures !Better(v, node, peer) && forall p :: p in v.live && p !in rest ==> !Better(v, p, peer)
  {
    forall p | p == node || (p in v.live && p !in rest) ensures !Better(v, p, peer) {
      BetterIsTotal(v, p, peer);
      if p != peer && Better(v, p, peer) { BetterIsTransitive(v, p, peer, best); }
    }
  }

  // ---------------------------------------------------------------- admission

  /** When each clock started, if it is running. */
  datatype Clocks = Clocks(noPeerSince: Option<int>, noHolderSince: Option<int>)

  function Later(a: int, b: int): int { if b > a then b else a }

  predicate Elapsed(c: Clocks, now: int, hold: int) {
    c.noPeerSince.Some? && c.noHolderSince.Some? && now - Later(c.noPeerSince.value, c.noHolderSince.value) >= hold
  }

  /** What entryDecision answers. */
  ghost predicate Admitted(v: View, node: string, c: Clocks, now: int, hold: int) {
    Fit(v, node) || (!FitPeer(v, node) && IsBest(v, node, node) && Elapsed(c, now, hold))
  }

  method EntryDecision(node: string, v: View, c: Clocks, now: int, hold: int) returns (r: bool)
    ensures r <==> Admitted(v, node, c, now, hold)
  {
    if Fit(v, node) {
      return true;
    }
    var peer := HasFullyEligiblePeer(node, v);
    if peer {
      return false;
    }
    var best := BestNode(node, v);
    if best == node {
      return Elapsed(c, now, hold);
    }
    if IsBest(v, node, node) { BestIsUnique(v, node, best, node); }
    return false;
  }

  /** While a fully eligible node is live, the admitted are exactly such nodes, whatever the clocks. */
  lemma FitNodesExcludeOthers(v: View, node: string, c: Clocks, now: int, hold: int, fit: string)
    requires Fit(v, fit)
    ensures Admitted(v, node, c, now, hold) <==> Fit(v, node)
  {
    if node != fit { assert FitPeer(v, node); }
  }

  lemma {:induction false} BestExists(v: View, among: set<string>) returns (best: string)
    requires among != {}
    ensures best in among && forall p :: p in among ==> !Better(v, p, best)
  {
    best :| best in among;
    LessTotal(best, best);
    if among != {best} {
      var rest := among - {best};
      var other := BestExists(v, rest);
      BetterIsTotal(v, best, other);
      if Better(v, other, best) {
        best := other;
      } else {
        forall p | p in among ensures !Better(v, p, best) {
          if p != best && Better(v, p, best) { BetterIsTransitive(v, p, best, other); }
        }
      }
    }
  }

  /** Without one, and with every live node's clocks elapsed, exactly one live node is admitted. */
  lemma ExactlyOneAdmitted(v: View, clocks: string -> Clocks, now: int, hold: int) returns (chosen: string)
    requires v.live != {} && forall n :: n in v.live ==> !Fit(v, n)
    requires forall n :: n in v.live ==> Elapsed(clocks(n), now, hold)
    ensures forall n :: n in v.live ==> (Admitted(v, n, clocks(n), now, hold) <==> n == chosen)
    ensures chosen in v.live
  {
    chosen := BestExists(v, v.live);
    forall n | n in v.live ensures Admitted(v, n, clocks(n), now, hold) <==> n == chosen {
      assert !FitPeer(v, n);
      if IsBest(v, n, n) { BetterIsTotal(v, n, chosen); }
      assert IsBest(v, chosen, chosen);
    }
  }

  /** What entryStillEligible answers while contending. */
  method EntryStillEligible(node: string, v: View, otherHolder: bool, now: int, hold: int) returns (r: bool)
    ensures r <==> Fit(v, node) || (!otherHolder && !FitPeer(v, node) && IsBest(v, node, node))
  {
    if Fit(v, node) {
      return true;
    }
    if otherHolder {
      return false;
    }
    r := EntryDecision(node, v, Clocks(Some(now - hold), Some(now - hold)), now, hold);
  }

  // ---------------------------------------------------------------- handing over

  /** What handoffDecision answers. */
  ghost predicate HandsOff(v: View, node: string, peerSince: Option<int>, now: int, hold: int) {
    && !Fit(v, node)
    && if Score(v, node) == 0 then exists p :: p in v.live && p != node && Score(v, p) > 0
       else FitPeer(v, node) && peerSince.Some? && now - peerSince.value >= hold
  }

  method HandoffDecision(node: string, v: View, peerSince: Option<int>, now: int, hold: int) returns (r: bool)
    ensures r <==> HandsOff(v, node, peerSince, now, hold)
  {
    if Fit(v, node) {
      return false;
    }
    if Score(v, node) == 0 {
      var rest := v.live;
      while rest != {}
        invariant rest <= v.live && forall p :: p in v.live && p !in rest ==> p == node || Score(v, p) == 0
        decreases |rest|
      {
        var peer :| peer in rest;
        if peer != node && Score(v, peer) > 0 {
          return true;
        }
        rest := rest - {peer};
      }
      return false;
    }
    var fit := HasFullyEligiblePeer(node, v);
    return fit && peerSince.Some? && now - peerSince.value >= hold;
  }

  /** On one view no node is both admitted and made to hand over, whatever either set of clocks says. */
  lemma NoPingPong(v: View, node: string, c: Clocks, peerSince: Option<int>, now: int, now': int, hold: int)
    ensures !(Admitted(v, node, c, now, hold) && HandsOff(v, node, peerSince, now', hold))
  {
    if HandsOff(v, node, peerSince, now', hold) && Score(v, node) == 0 {
      var p :| p in v.live && p != node && Score(v, p) > 0;
      assert Better(v, p, node);
    }
  }

  /** A holder made to hand over gives way to somebody else, who then stays on that view. */
  lemma HandOverIsStable(v: View, holder: string, next: string, c: Clocks, s: Option<int>, s': Option<int>, now: int,
                         now': int, hold: int)
    requires HandsOff(v, holder, s, now, hold) && Admitted(v, next, c, now', hold)
    ensures next != holder && !HandsOff(v, next, s', now', hold)
  {
    NoPingPong(v, holder, c, s, now', now, hold);
    NoPingPong(v, next, c, s', now', now', hold);
  }

  // ---------------------------------------------------------------- keeping the plane

  /** Whether an ended cycle tears its plane down: asked to, or superseded under a newer term. */
  predicate TeardownDecision(stepped: bool, sigterm: bool, forced: bool, readOk: bool, holder: string, self: string,
                             term: int, acquiredTerm: int, termKnown: bool) {
    stepped || sigterm || forced || (readOk && termKnown && holder != self && term > acquiredTerm)
  }

  /** A plane is kept only by a cycle nobody ended: the hand-over the protocol of module Election allows. */
  lemma KeepingIsAHandOver(c: Election.Cycle, steppedDown: bool, sigterm: bool, readOk: bool, holder: string,
                           self: string, term: int, acquiredTerm: int, termKnown: bool, free: bool, pending: bool)
    requires c.callback.Deciding?
    requires !TeardownDecision(steppedDown || c.ended, sigterm, c.callback.forced, readOk, holder, self, term,
             acquiredTerm, termKnown)
    ensures Election.CallbackCan(c, free, pending, Election.Decide(true))
    ensures Election.CallbackDo(c, Election.Decide(true)).callback.Handing?
    ensures !readOk || !termKnown || holder == self || term <= acquiredTerm
  {}
}
