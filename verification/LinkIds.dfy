/** Link-id allocation for Local Gateways: internal/controller/link.go, ensureLinkID and what it calls. */
module LinkIds {
  import opened Text
  import opened Identity

  /** The two places a Gateway claims an id in: status.link.id (0 when unset) and the link-id annotation. */
  datatype Gateway = Gateway(local: bool, status: nat, annotation: Option<string>)

  /** The API server's Gateways, by namespace/name. */
  type Cluster = map<string, Gateway>

  function ParseLinkID(raw: string): (r: Option<nat>)
    ensures r.Some? ==> 1 <= r.value <= MAX_LINK_ID
  {
    var parsed := Atoi(TrimSpace(raw));
    if parsed.Some? && 1 <= parsed.value <= MAX_LINK_ID then Some(parsed.value) else None
  }

  lemma ParseOfItoa(id: LinkID)
    ensures ParseLinkID(Itoa(id)) == Some(id)
  {
    AtoiOfItoa(id);
    assert IsDigit(Itoa(id)[0]) && IsDigit(Itoa(id)[|Itoa(id)| - 1]);
  }

  function AnnotatedID(g: Gateway): (r: Option<nat>)
    ensures r.Some? ==> 1 <= r.value <= MAX_LINK_ID
  {
    if g.annotation.Some? then ParseLinkID(g.annotation.value) else None
  }

  predicate Claims(g: Gateway, id: nat) {
    (g.status > 0 && g.status == id) || AnnotatedID(g) == Some(id)
  }

  ghost predicate HeldElsewhere(c: Cluster, self: string, id: nat) {
    exists k :: k in c && k != self && Claims(c[k], id)
  }

  /** The ids a status or annotation of another Gateway reserves. */
  ghost function Held(c: Cluster, self: string): (ids: set<nat>)
    ensures forall id :: id in ids <==> HeldElsewhere(c, self, id)
  {
    var statuses := set k | k in c && k != self && c[k].status > 0 :: c[k].status;
    var annotated := set k | k in c && k != self && AnnotatedID(c[k]).Some? :: AnnotatedID(c[k]).value;
    assert forall id :: HeldElsewhere(c, self, id) ==> id in statuses + annotated;
    statuses + annotated
  }

  /** linkIDHolders: walks the Gateways in any order, filling one map from both kinds of claim. */
  method LinkIDHolders(c: Cluster, self: string) returns (holders: map<nat, string>)
    ensures holders.Keys == Held(c, self)
    ensures forall id :: id in holders ==> holders[id] in c && holders[id] != self && Claims(c[holders[id]], id)
  {
    holders := map[];
    var left := c.Keys;
    while left != {}
      invariant left <= c.Keys
      invariant forall id :: id in holders ==> holders[id] in c && holders[id] != self && Claims(c[holders[id]], id)
      invariant forall k, id :: k in c && k !in left && k != self && Claims(c[k], id) ==> id in holders
      decreases |left|
    {
      var k :| k in left;
      left := left - {k};
      if k == self {
        continue;
      }
      if c[k].status > 0 {
        holders := holders[c[k].status := k];
      }
      var annotated := AnnotatedID(c[k]);
      if annotated.Some? {
        holders := holders[annotated.value := k];
      }
    }
  }

  ghost predicate IsLowestFree(taken: set<nat>, r: Option<nat>) {
    match r
    case Some(id) => 1 <= id <= MAX_LINK_ID && id !in taken && forall j :: 1 <= j < id ==> j in taken
    case None => forall j :: 1 <= j <= MAX_LINK_ID ==> j in taken
  }

  lemma LowestExists(taken: set<nat>)
    ensures exists r :: IsLowestFree(taken, r)
  {
    if j: nat :| 1 <= j <= MAX_LINK_ID && j !in taken && forall i :: 1 <= i < j ==> i in taken {
      assert IsLowestFree(taken, Some(j));
    } else {
      AllTaken(taken, MAX_LINK_ID, MAX_LINK_ID);
      assert IsLowestFree(taken, None);
    }
  }

  lemma {:induction false} AllTaken(taken: set<nat>, n: nat, m: nat)
    requires m <= n && forall j :: 1 <= j <= n && (forall i :: 1 <= i < j ==> i in taken) ==> j in taken
    ensures forall j :: 1 <= j <= m ==> j in taken
  {
    if m > 0 { AllTaken(taken, n, m - 1); }
  }

  /** The lowest id nobody holds, or none when all are held. */
  ghost function LowestFree(taken: set<nat>): (r: Option<nat>)
    ensures IsLowestFree(taken, r)
  {
    LowestExists(taken);
    var r :| IsLowestFree(taken, r);
    r
  }

  method LowestFreeLinkID(c: Cluster, self: string) returns (r: Option<nat>)
    ensures r == LowestFree(Held(c, self))
  {
    var taken := LinkIDHolders(c, self);
    r := FirstFree(taken);
    LowestUnique(taken.Keys, r, LowestFree(taken.Keys));
  }

  method FirstFree(taken: map<nat, string>) returns (r: Option<nat>)
    ensures IsLowestFree(taken.Keys, r)
  {
    var id := 1;
    while id <= MAX_LINK_ID
      invariant 1 <= id <= MAX_LINK_ID + 1
      invariant forall j :: 1 <= j < id ==> j in taken
    {
      if id !in taken {
        return Some(id);
      }
      id := id + 1;
    }
    return None;
  }

  lemma LowestUnique(taken: set<nat>, r: Option<nat>, r': Option<nat>)
    requires IsLowestFree(taken, r) && IsLowestFree(taken, r')
    ensures r == r'
  {}

  // ---------------------------------------------------------------- one allocation

  /** Which API call of a pass fails, if any. */
  datatype Fault = NoFault | ListFails | StatusWriteFails | AnnotationWriteFails

  datatype Outcome = Outcome(cluster: Cluster, failed: bool)

  /** persistLinkIDAnnotation: skipped when the cached copy already carries the id. */
  function Persist(c: Cluster, self: string, cached: Gateway, id: nat, fault: Fault): Outcome {
    if cached.annotation == Some(Itoa(id)) then Outcome(c, false)
    else if self !in c || fault.AnnotationWriteFails? then Outcome(c, true)
    else Outcome(c[self := c[self].(annotation := Some(Itoa(id)))], false)
  }

  ghost function ChooseID(c: Cluster, self: string, cached: Gateway): (r: Option<nat>)
    ensures r.Some? ==> 1 <= r.value <= MAX_LINK_ID && r.value !in Held(c, self)
  {
    var annotated := AnnotatedID(cached);
    if annotated.Some? && annotated.value !in Held(c, self) then annotated
    else LowestFree(Held(c, self))
  }

  /** ensureLinkID on a cached copy that may be older than what the API server holds. */
  ghost function Ensure(c: Cluster, self: string, cached: Gateway, fault: Fault): Outcome {
    if !cached.local then Outcome(c, false)
    else if cached.status > 0 then Persist(c, self, cached, cached.status, fault)
    else
      var id := ChooseID(c, self, cached);
      if fault.ListFails? || id.None? || self !in c || fault.StatusWriteFails? then Outcome(c, true)
      else if c[self].status > 0 then Persist(c, self, cached, c[self].status, fault)
      else Persist(c[self := c[self].(status := id.value)], self, cached, id.value, fault)
  }

  class ApiServer {
    var gateways: Cluster

    method EnsureLinkID(self: string, cached: Gateway, fault: Fault) returns (failed: bool)
      modifies this
      ensures Outcome(gateways, failed) == Ensure(old(gateways), self, cached, fault)
    {
      failed := false;
      if !cached.local {
        return;
      }
      var id := cached.status;
      if id == 0 {
        if fault.ListFails? {
          return true;
        }
        var chosen := AdoptableLinkID(self, cached);
        if chosen.None? {
          chosen := LowestFreeLinkID(gateways, self);
        }
        if chosen.None? || self !in gateways || fault.StatusWriteFails? {
          return true;
        }
        if gateways[self].status > 0 {
          id := gateways[self].status;
        } else {
          id := chosen.value;
          gateways := gateways[self := gateways[self].(status := id)];
        }
      }
      if cached.annotation != Some(Itoa(id)) {
        if self !in gateways || fault.AnnotationWriteFails? {
          return true;
        }
        gateways := gateways[self := gateways[self].(annotation := Some(Itoa(id)))];
      }
    }

    /** The annotated id, when well-formed and held by nobody else. */
    method AdoptableLinkID(self: string, cached: Gateway) returns (r: Option<nat>)
      ensures r == if AnnotatedID(cached).Some? && AnnotatedID(cached).value !in Held(gateways, self)
                   then AnnotatedID(cached) else None
    {
      r := AnnotatedID(cached);
      if r.Some? {
        var holders := LinkIDHolders(gateways, self);
        if r.value in holders {
          r := None;
        }
      }
    }
  }

  // ---------------------------------------------------------------- runs

  /**
   * What can happen to the cluster. DropStatus is a restore in place that loses status; Restore re-creates a deleted
   * Gateway from a backup, with whatever annotation that holds and without status; Annotate is an edit by a user.
   */
  datatype Event =
    | Create(key: string, local: bool)
    | Delete(key: string)
    | DropStatus(key: string)
    | Restore(key: string, local: bool, annotation: Option<string>)
    | Annotate(key: string, annotation: Option<string>)
    | Reconcile(key: string, cached: Gateway, fault: Fault)

  ghost function Step(c: Cluster, e: Event): Cluster {
    match e
    case Create(k, local) => if k in c then c else c[k := Gateway(local, 0, None)]
    case Delete(k) => c - {k}
    case DropStatus(k) => if k in c then c[k := c[k].(status := 0)] else c
    case Restore(k, local, a) => if k in c then c else c[k := Gateway(local, 0, a)]
    case Annotate(k, a) => if k in c then c[k := c[k].(annotation := a)] else c
    case Reconcile(k, cached, fault) => Ensure(c, k, cached, fault).cluster
  }

  ghost function Run(c: Cluster, events: seq<Event>): Cluster
    decreases |events|
  {
    if events == [] then c else Step(Run(c, events[..|events| - 1]), events[|events| - 1])
  }

  ghost predicate StatusesDistinct(c: Cluster) {
    && (forall k :: k in c ==> c[k].status <= MAX_LINK_ID)
    && (forall k, l :: k in c && l in c && k != l && c[k].status > 0 ==> c[k].status != c[l].status)
  }

  /** A pass touches one Gateway, never a status already set, and takes only an id nobody else claims. */
  lemma EnsureEffect(c: Cluster, self: string, cached: Gateway, fault: Fault)
    ensures var c' := Ensure(c, self, cached, fault).cluster;
            && c'.Keys == c.Keys
            && (forall l :: l in c && l != self ==> c'[l] == c[l])
            && (self in c ==>
                  || c'[self].status == c[self].status
                  || (c[self].status == 0 && 1 <= c'[self].status <= MAX_LINK_ID
                        && !HeldElsewhere(c, self, c'[self].status)))
  {
    var id := ChooseID(c, self, cached);
    assert id.Some? ==> !HeldElsewhere(c, self, id.value);
  }

  lemma StepKeepsStatusesDistinct(c: Cluster, e: Event)
    requires StatusesDistinct(c)
    ensures StatusesDistinct(Step(c, e))
  {
    if e.Reconcile? {
      EnsureEffect(c, e.key, e.cached, e.fault);
      var c' := Step(c, e);
      forall k, l | k in c' && l in c' && k != l && c'[k].status > 0 ensures c'[k].status != c'[l].status {
        if k == e.key && c'[k] != c[k] {
          assert Claims(c[l], c[l].status) || c[l].status == 0;
        } else if l == e.key && c'[l] != c[l] {
          assert Claims(c[k], c[k].status);
        }
      }
    }
  }

  /** Whatever users write into annotations and however stale the operator's cache, no two Gateways share an id. */
  lemma {:induction false} StatusIdsStayDistinct(events: seq<Event>)
    ensures StatusesDistinct(Run(map[], events))
  {
    if events != [] {
      StatusIdsStayDistinct(events[..|events| - 1]);
      StepKeepsStatusesDistinct(Run(map[], events[..|events| - 1]), events[|events| - 1]);
    }
  }

  ghost predicate Touches(e: Event, k: string) {
    (e.Delete? || e.DropStatus?) && e.key == k
  }

  /** An id once recorded in status stays until the Gateway is deleted or restored without status. */
  lemma {:induction false} StatusIdNeverReassigned(c: Cluster, events: seq<Event>, k: string)
    requires k in c && c[k].status > 0
    requires forall e :: e in events ==> !Touches(e, k)
    ensures k in Run(c, events) && Run(c, events)[k].status == c[k].status
  {
    if events != [] {
      assert events[|events| - 1] in events;
      StatusIdNeverReassigned(c, events[..|events| - 1], k);
    }
  }

  // ---------------------------------------------------------------- annotations nobody else writes

  /** A backup's annotation as the operator wrote it, for an id nobody has taken since. */
  ghost predicate StillFree(c: Cluster, k: string, annotation: Option<string>) {
    annotation.Some? ==>
      var id := ParseLinkID(annotation.value);
      id.Some? && annotation.value == Itoa(id.value) && !HeldElsewhere(c, k, id.value)
  }

  /** Nobody edits annotations, passes see the current copy, and a backup comes back only while its id is still free. */
  ghost predicate OperatorOnly(c: Cluster, e: Event) {
    && !e.Annotate? && (e.Reconcile? ==> e.key in c && e.cached == c[e.key])
    && (e.Restore? && e.key !in c ==> StillFree(c, e.key, e.annotation))
  }

  ghost predicate OperatorRun(c: Cluster, events: seq<Event>)
    decreases |events|
  {
    events == [] ||
    (OperatorRun(c, events[..|events| - 1]) && OperatorOnly(Run(c, events[..|events| - 1]), events[|events| - 1]))
  }

  ghost predicate WellFormed(g: Gateway) {
    && g.status <= MAX_LINK_ID
    && (g.annotation.Some? ==> AnnotatedID(g).Some? && g.annotation == Some(Itoa(AnnotatedID(g).value)))
    && (g.annotation.Some? && g.status > 0 ==> AnnotatedID(g) == Some(g.status))
  }

  ghost predicate ClaimsDisjoint(c: Cluster) {
    && (forall k :: k in c ==> WellFormed(c[k]))
    && (forall k, l, id :: k in c && l in c && k != l && Claims(c[k], id) ==> !Claims(c[l], id))
  }

  /** With a fresh copy and operator-written annotations, a pass adds at most a claim nobody else has. */
  lemma FreshEnsureEffect(c: Cluster, self: string, fault: Fault)
    requires ClaimsDisjoint(c) && self in c
    ensures var c' := Ensure(c, self, c[self], fault).cluster;
            && c'.Keys == c.Keys && WellFormed(c'[self])
            && (forall l :: l in c && l != self ==> c'[l] == c[l])
            && (forall id :: Claims(c'[self], id) ==> !HeldElsewhere(c, self, id))
  {
    var g := c[self];
    forall id | Claims(g, id) ensures !HeldElsewhere(c, self, id) {}
    if g.local {
      if g.status > 0 {
        ParseOfItoa(g.status);
      } else {
        var id := ChooseID(c, self, g);
        if id.Some? {
          ParseOfItoa(id.value);
          assert g.annotation.Some? ==> Claims(g, AnnotatedID(g).value);
        }
      }
    }
  }

  lemma OperatorStepKeepsClaimsDisjoint(c: Cluster, e: Event)
    requires ClaimsDisjoint(c) && OperatorOnly(c, e)
    ensures ClaimsDisjoint(Step(c, e))
  {
    var c' := Step(c, e);
    if e.Reconcile? {
      FreshEnsureEffect(c, e.key, e.fault);
      forall k, l, id | k in c' && l in c' && k != l && Claims(c'[k], id) ensures !Claims(c'[l], id) {
        if k == e.key { assert !HeldElsewhere(c, e.key, id); }
        if l == e.key && Claims(c'[l], id) { assert HeldElsewhere(c, e.key, id); }
      }
    } else if e.DropStatus? && e.key in c {
      var g := c[e.key];
      assert AnnotatedID(c'[e.key]) == AnnotatedID(g);
      forall id | Claims(c'[e.key], id) ensures Claims(g, id) {}
    } else if e.Restore? && e.key !in c {
      assert AnnotatedID(c'[e.key]) == if e.annotation.Some? then ParseLinkID(e.annotation.value) else None;
      forall l, id | l in c && Claims(c'[e.key], id) ensures !Claims(c[l], id) {
        assert Claims(c[l], id) ==> HeldElsewhere(c, e.key, id);
      }
    }
  }

  lemma {:induction false} ClaimsStayDisjoint(events: seq<Event>)
    requires OperatorRun(map[], events)
    ensures ClaimsDisjoint(Run(map[], events))
  {
    if events != [] {
      ClaimsStayDisjoint(events[..|events| - 1]);
      OperatorStepKeepsClaimsDisjoint(Run(map[], events[..|events| - 1]), events[|events| - 1]);
    }
  }

  /** A restored Gateway regains its annotated id exactly when nobody else claims that id. */
  lemma RegainsAnnotatedID(c: Cluster, k: string)
    requires k in c && c[k].local && c[k].status == 0 && AnnotatedID(c[k]).Some?
    ensures var c' := Ensure(c, k, c[k], NoFault).cluster;
            k in c' && (c'[k].status == AnnotatedID(c[k]).value <==> !HeldElsewhere(c, k, AnnotatedID(c[k]).value))
  {
    EnsureEffect(c, k, c[k], NoFault);
  }

  /**
   * In a run where only the operator writes annotations and backups come back while their ids are free, nobody ever
   * claims an annotated id of somebody else: every Gateway without status, restored in place or re-created, regains its
   * id.
   */
  lemma RestoreRegainsID(events: seq<Event>, k: string)
    requires OperatorRun(map[], events)
    requires var c := Run(map[], events); k in c && c[k].local && c[k].status == 0 && c[k].annotation.Some?
    ensures var c := Run(map[], events);
            var c' := Ensure(c, k, c[k], NoFault).cluster;
            k in c' && c[k].annotation == Some(Itoa(c'[k].status)) && c'[k].status > 0
  {
    var c := Run(map[], events);
    ClaimsStayDisjoint(events);
    RegainsAnnotatedID(c, k);
    assert Claims(c[k], AnnotatedID(c[k]).value);
  }

  /** The condition on backups is exact: bringing one back keeps claims disjoint if and only if its id is still free. */
  lemma RestoreKeepsClaimsIff(c: Cluster, k: string, local: bool, id: LinkID)
    requires ClaimsDisjoint(c) && k !in c
    ensures ClaimsDisjoint(Step(c, Restore(k, local, Some(Itoa(id))))) <==> StillFree(c, k, Some(Itoa(id)))
  {
    ParseOfItoa(id);
    var c' := Step(c, Restore(k, local, Some(Itoa(id))));
    if StillFree(c, k, Some(Itoa(id))) {
      OperatorStepKeepsClaimsDisjoint(c, Restore(k, local, Some(Itoa(id))));
    } else {
      var l :| l in c && l != k && Claims(c[l], id);
      assert c'[l] == c[l] && Claims(c'[k], id) && Claims(c'[l], id);
    }
  }

  /** The first pass over a Local Gateway without claims gives it the lowest free id. */
  lemma FirstPass(c: Cluster, k: string, id: nat)
    requires k in c && c[k] == Gateway(true, 0, None) && LowestFree(Held(c, k)) == Some(id)
    ensures Step(c, Reconcile(k, c[k], NoFault)) == c[k := Gateway(true, id, Some(Itoa(id)))]
  {}

  lemma AloneGetsOne(c: Cluster, k: string)
    requires c.Keys == {k}
    ensures LowestFree(Held(c, k)) == Some(1)
  {
    assert IsLowestFree(Held(c, k), Some(1));
    LowestUnique(Held(c, k), Some(1), LowestFree(Held(c, k)));
  }

  lemma RunStep(c: Cluster, events: seq<Event>, e: Event)
    ensures Run(c, events + [e]) == Step(Run(c, events), e)
  {
    assert (events + [e])[..|events|] == events;
  }

  /** On an empty cluster a Gateway is created and gets id 1. */
  lemma FirstGateway(events: seq<Event>, k: string) returns (more: seq<Event>)
    requires Run(map[], events) == map[]
    ensures Run(map[], more) == map[k := Gateway(true, 1, Some(Itoa(1)))]
  {
    var g := Gateway(true, 0, None);
    var created := events + [Create(k, true)];
    RunStep(map[], events, Create(k, true));
    assert Run(map[], created) == map[k := g];
    more := created + [Reconcile(k, g, NoFault)];
    RunStep(map[], created, Reconcile(k, g, NoFault));
    AloneGetsOne(map[k := g], k);
    FirstPass(map[k := g], k, 1);
  }

  /** Where another Gateway claims the annotated id, a pass allocates another one. */
  lemma TakenIsNotRegained(c: Cluster, k: string, l: string)
    requires k in c && l in c && k != l && c[k] == Gateway(true, 0, Some(Itoa(1))) && Claims(c[l], 1)
    ensures var c' := Ensure(c, k, c[k], NoFault).cluster; HeldElsewhere(c, k, 1) && k in c' && c'[k].status != 1
  {
    ParseOfItoa(1);
    RegainsAnnotatedID(c, k);
  }

  /**
   * It can fail to be free: an id given back by a deletion is taken, and the backup of its first owner then loses it.
   */
  lemma TakenIdIsLost() returns (events: seq<Event>)
    ensures var c := Run(map[], events);
            && "a" in c && c["a"] == Gateway(true, 0, Some(Itoa(1))) && HeldElsewhere(c, "a", 1)
            && var c' := Ensure(c, "a", c["a"], NoFault).cluster; "a" in c' && c'["a"].status != 1
  {
    var owned := FirstGateway([], "a");
    RunStep(map[], owned, Delete("a"));
    var taken := FirstGateway(owned + [Delete("a")], "b");
    var back := Restore("a", true, Some(Itoa(1)));
    RunStep(map[], taken, back);
    events := taken + [back];
    TakenIsNotRegained(Run(map[], events), "a", "b");
  }

  /** Allocated ids carry over to the node: no name, mark, table or port of two Gateways coincides, at any slots. */
  lemma NodeStateDisjoint(events: seq<Event>, k: string, s: Slot, l: string, s': Slot)
    requires var c := Run(map[], events); k in c && l in c && k != l && c[k].status > 0 && c[l].status > 0
    ensures var c := Run(map[], events);
            && c[k].status <= MAX_LINK_ID && c[l].status <= MAX_LINK_ID
            && Disjoint(NewSlotIdentity(c[k].status, s), NewSlotIdentity(c[l].status, s'))
            && NewGatewayIdentity(c[k].status).nftTable != NewGatewayIdentity(c[l].status).nftTable
            && NewGatewayIdentity(c[k].status).healthPort != NewGatewayIdentity(c[l].status).healthPort
  {
    StatusIdsStayDistinct(events);
    var c := Run(map[], events);
    SlotIdentitiesDisjoint(c[k].status, s, c[l].status, s');
    GatewayIdentitiesDisjoint(c[k].status, c[l].status);
  }
}
