/**
 * Local endpoint resolution and scores: internal/link/endpoints.go. Informer caches are read through their contents at
 * the time.
 */
module Endpoints {
  import opened Text
  import ElectionChoice

  datatype Forward = Forward(name: string, namespace: string, serviceName: string, portName: string, publicPort: nat,
      protocol: string)

  datatype Key = Key(namespace: string, serviceName: string)

  function KeyOf(f: Forward): Key { Key(f.namespace, f.serviceName) }

  datatype SlicePort = SlicePort(name: Option<string>, port: Option<nat>)

  datatype Endpoint = Endpoint(node: Option<string>, ready: Option<bool>, addresses: seq<string>)

  datatype Slice = Slice(ipv4: bool, ports: seq<SlicePort>, endpoints: seq<Endpoint>)

  /**
   * One informer as read: has its initial list arrived, is it still within grace, what does it hold, in no fixed order.
   */
  datatype Cache = Cache(synced: bool, inGrace: bool, slices: seq<Slice>)

  // ---------------------------------------------------------------- selecting

  function PortName(p: SlicePort): string { if p.name.Some? then p.name.value else "" }

  /** The first port of that name, if it carries a number. */
  ghost predicate Resolves(ports: seq<SlicePort>, name: string, port: nat) {
    exists i :: 0 <= i < |ports| && PortName(ports[i]) == name && ports[i].port == Some(port)
        && forall j :: 0 <= j < i ==> PortName(ports[j]) != name
  }

  method FindPort(ports: seq<SlicePort>, name: string) returns (r: Option<nat>)
    ensures r.Some? ==> Resolves(ports, name, r.value)
    ensures forall p: nat :: Resolves(ports, name, p) ==> r == Some(p)
  {
    for i := 0 to |ports|
      invariant forall j :: 0 <= j < i ==> PortName(ports[j]) != name
    {
      if PortName(ports[i]) == name {
        return ports[i].port;
      }
    }
    return None;
  }

  predicate Serves(s: Slice, e: Endpoint, node: string) { s.ipv4 && e.node == Some(node) && e.ready != Some(false) }

  datatype Target = Target(address: string, port: nat)

  ghost predicate Offers(s: Slice, node: string, portName: string, isIP: string -> bool, t: Target) {
    && Resolves(s.ports, portName, t.port) && isIP(t.address)
    && exists e :: e in s.endpoints && Serves(s, e, node) && t.address in e.addresses
  }

  ghost predicate IsCandidate(c: Cache, node: string, portName: string, isIP: string -> bool, t: Target) {
    exists s :: s in c.slices && Offers(s, node, portName, isIP, t)
  }

  predicate Before(a: Target, b: Target) { Less(a.address, b.address) || (a.address == b.address && a.port < b.port) }

  lemma BeforeIsTotal(a: Target, b: Target)
    ensures a == b || Before(a, b) || Before(b, a)
    ensures !(Before(a, b) && Before(b, a))
  {
    LessTotal(a.address, b.address);
  }

  lemma BeforeIsTransitive(a: Target, b: Target, c: Target)
    requires Before(a, b) && Before(b, c)
    ensures Before(a, c)
  {
    if Less(a.address, b.address) && Less(b.address, c.address) { LessTransitive(a.address, b.address, c.address); }
  }

  /** The least candidate, or none when there is none. */
  ghost predicate Selects(c: Cache, node: string, portName: string, isIP: string -> bool, r: Option<Target>) {
    match r
    case None => forall t :: !IsCandidate(c, node, portName, isIP, t)
    case Some(least) => IsCandidate(c, node, portName, isIP, least)
                        && forall t :: IsCandidate(c, node, portName, isIP, t) ==> !Before(t, least)
  }

  /**
   * Selection depends on the candidates alone: two caches offering the same ones select the same, whatever their order.
   */
  lemma SelectionIgnoresOrder(c: Cache, d: Cache, node: string, portName: string, isIP: string -> bool,
                              r: Option<Target>, q: Option<Target>)
    requires forall t :: IsCandidate(c, node, portName, isIP, t) <==> IsCandidate(d, node, portName, isIP, t)
    requires Selects(c, node, portName, isIP, r) && Selects(d, node, portName, isIP, q)
    ensures r == q
  {
    if r.Some? && q.Some? { BeforeIsTotal(r.value, q.value); }
  }

  /** The targets of one slice. */
  method SliceTargets(s: Slice, node: string, portName: string, isIP: string -> bool) returns (targets: seq<Target>)
    ensures forall t :: t in targets <==> Offers(s, node, portName, isIP, t)
  {
    targets := [];
    var port := FindPort(s.ports, portName);
    if port.None? {
      return;
    }
    for i := 0 to |s.endpoints|
      invariant forall t :: t in targets <==>
        t.port == port.value && isIP(t.address)
        && exists k :: 0 <= k < i && Serves(s, s.endpoints[k], node) && t.address in s.endpoints[k].addresses
    {
      if Serves(s, s.endpoints[i], node) {
        var more := EndpointTargets(s.endpoints[i].addresses, port.value, isIP);
        targets := targets + more;
      }
    }
    forall t ensures t in targets <==> Offers(s, node, portName, isIP, t) {
      if t in targets {
        var k :| 0 <= k < |s.endpoints| && Serves(s, s.endpoints[k], node) && t.address in s.endpoints[k].addresses;
        assert s.endpoints[k] in s.endpoints;
      }
    }
  }

  method EndpointTargets(addresses: seq<string>, port: nat, isIP: string -> bool) returns (targets: seq<Target>)
    ensures forall t :: t in targets <==> t.port == port && isIP(t.address) && t.address in addresses
  {
    targets := [];
    for i := 0 to |addresses|
      invariant forall t :: t in targets <==> t.port == port && isIP(t.address) && t.address in addresses[..i]
    {
      assert addresses[..i + 1] == addresses[..i] + [addresses[i]];
      if isIP(addresses[i]) {
        targets := targets + [Target(addresses[i], port)];
      }
    }
    assert addresses[..|addresses|] == addresses;
  }

  /** The head of the sorted candidates. */
  method Least(targets: seq<Target>) returns (r: Option<Target>)
    ensures r.None? <==> targets == []
    ensures r.Some? ==> r.value in targets && forall t :: t in targets ==> !Before(t, r.value)
  {
    if targets == [] {
      return None;
    }
    var least := targets[0];
    BeforeIsTotal(least, least);
    for i := 1 to |targets|
      invariant least in targets && forall k :: 0 <= k < i ==> !Before(targets[k], least)
    {
      if Before(targets[i], least) {
        forall k | 0 <= k <= i ensures !Before(targets[k], targets[i]) {
          BeforeIsTotal(targets[k], targets[i]);
          if k < i && Before(targets[k], targets[i]) { BeforeIsTransitive(targets[k], targets[i], least); }
        }
        least := targets[i];
      }
    }
    return Some(least);
  }

  method SelectEndpoint(c: Cache, node: string, portName: string, isIP: string -> bool) returns (r: Option<Target>)
    ensures Selects(c, node, portName, isIP, r)
  {
    var targets: seq<Target> := [];
    for i := 0 to |c.slices|
      invariant forall t :: t in targets <==> exists k :: 0 <= k < i && Offers(c.slices[k], node, portName, isIP, t)
    {
      var more := SliceTargets(c.slices[i], node, portName, isIP);
      targets := targets + more;
    }
    forall t ensures t in targets <==> IsCandidate(c, node, portName, isIP, t) {
      if t in targets {
        var k :| 0 <= k < |c.slices| && Offers(c.slices[k], node, portName, isIP, t);
        assert c.slices[k] in c.slices;
      }
    }
    r := Least(targets);
    if r.None? {
      forall t ensures !IsCandidate(c, node, portName, isIP, t) { assert t !in targets; }
    }
  }

  // ---------------------------------------------------------------- the watcher

  /** What an apply would do with a forward: the reading both views share. */
  ghost predicate Served(c: Cache, node: string, f: Forward, isIP: string -> bool) {
    exists t :: IsCandidate(c, node, f.portName, isIP, t)
  }

  predicate Pending(c: Cache) { !c.synced && c.inGrace }

  datatype Reason = WatchUnsynced | NoLocalPod | PortNotFound

  datatype Unsatisfied = Unsatisfied(name: string, reason: Reason)

  datatype Resolved = Resolved(name: string, publicPort: nat, protocol: string, target: Target)

  ghost predicate HasReadyEndpoint(c: Cache, node: string) {
    exists s, e :: s in c.slices && e in s.endpoints && Serves(s, e, node)
  }

  method FindReadyEndpoint(c: Cache, node: string) returns (r: bool)
    ensures r <==> HasReadyEndpoint(c, node)
  {
    for i := 0 to |c.slices|
      invariant forall k, e :: 0 <= k < i && e in c.slices[k].endpoints ==> !Serves(c.slices[k], e, node)
    {
      for j := 0 to |c.slices[i].endpoints|
        invariant forall k :: 0 <= k < j ==> !Serves(c.slices[i], c.slices[i].endpoints[k], node)
      {
        if Serves(c.slices[i], c.slices[i].endpoints[j], node) {
          assert c.slices[i] in c.slices && c.slices[i].endpoints[j] in c.slices[i].endpoints;
          return true;
        }
      }
    }
    return false;
  }

  /** The three lists a snapshot deals its forwards into. */
  datatype Snapshot = Snapshot(resolved: seq<Resolved>, unsatisfied: seq<Unsatisfied>, pending: seq<string>)

  /** Which list a forward belongs on. */
  ghost function Fate(c: Cache, node: string, f: Forward, isIP: string -> bool): nat {
    if Pending(c) then 2 else if c.synced && Served(c, node, f, isIP) then 0 else 1
  }

  /** The names of the forwards with a given fate, in forward order. */
  ghost function NamesWith(forwards: seq<Forward>, caches: Key -> Cache, node: string, isIP: string -> bool,
                           fate: nat): seq<string> {
    if forwards == [] then []
    else
      var f := forwards[|forwards| - 1];
      NamesWith(forwards[..|forwards| - 1], caches, node, isIP, fate) +
          (if Fate(caches(KeyOf(f)), node, f, isIP) == fate then [f.name] else [])
  }

  function ResolvedNames(r: seq<Resolved>): (s: seq<string>)
    ensures |s| == |r| && forall i :: 0 <= i < |r| ==> s[i] == r[i].name
  {
    seq(|r|, i requires 0 <= i < |r| => r[i].name)
  }

  function UnsatisfiedNames(u: seq<Unsatisfied>): (s: seq<string>)
    ensures |s| == |u| && forall i :: 0 <= i < |u| ==> s[i] == u[i].name
  {
    seq(|u|, i requires 0 <= i < |u| => u[i].name)
  }

  /** A resolved entry carries its forward's ports and the least target, an unsatisfied one the right reason. */
  ghost predicate ResolvedRight(forwards: seq<Forward>, caches: Key -> Cache, node: string, isIP: string -> bool,
                                r: Resolved) {
    exists f :: f in forwards && r.name == f.name && r.publicPort == f.publicPort && r.protocol == f.protocol &&
                Selects(caches(KeyOf(f)), node, f.portName, isIP, Some(r.target))
  }

  ghost predicate ReasonRight(forwards: seq<Forward>, caches: Key -> Cache, node: string, u: Unsatisfied) {
    exists f :: f in forwards && u.name == f.name && var c := caches(KeyOf(f));
      u.reason == if !c.synced then WatchUnsynced else if HasReadyEndpoint(c, node) then PortNotFound else NoLocalPod
  }

  /** Every forward on exactly one list, each list in forward order. */
  ghost predicate Partitions(forwards: seq<Forward>, caches: Key -> Cache, node: string, isIP: string -> bool,
                             s: Snapshot) {
    && ResolvedNames(s.resolved) == NamesWith(forwards, caches, node, isIP, 0)
    && UnsatisfiedNames(s.unsatisfied) == NamesWith(forwards, caches, node, isIP, 1)
    && s.pending == NamesWith(forwards, caches, node, isIP, 2)
    && (forall r :: r in s.resolved ==> ResolvedRight(forwards, caches, node, isIP, r))
    && (forall u :: u in s.unsatisfied ==> ReasonRight(forwards, caches, node, u))
  }

  lemma {:induction false} NothingLost(forwards: seq<Forward>, caches: Key -> Cache, node: string, isIP: string -> bool)
    ensures |NamesWith(forwards, caches, node, isIP, 0)| + |NamesWith(forwards, caches, node, isIP, 1)| +
            |NamesWith(forwards, caches, node, isIP, 2)| == |forwards|
  {
    if forwards != [] { NothingLost(forwards[..|forwards| - 1], caches, node, isIP); }
  }

  /** A name is on a list exactly when one of its forwards has that fate. */
  lemma {:induction false} NamedWith(forwards: seq<Forward>, caches: Key -> Cache, node: string, isIP: string -> bool,
                                     fate: nat, n: string)
    ensures n in NamesWith(forwards, caches, node, isIP, fate) <==>
            exists f :: f in forwards && f.name == n && Fate(caches(KeyOf(f)), node, f, isIP) == fate
  {
    if forwards != [] {
      var init, last := forwards[..|forwards| - 1], forwards[|forwards| - 1];
      NamedWith(init, caches, node, isIP, fate, n);
      assert forwards == init + [last];
    }
  }

  method TakeSnapshot(forwards: seq<Forward>, caches: Key -> Cache, node: string,
                      isIP: string -> bool) returns (s: Snapshot)
    ensures Partitions(forwards, caches, node, isIP, s)
  {
    s := Snapshot([], [], []);
    for i := 0 to |forwards|
      invariant Partitions(forwards[..i], caches, node, isIP, s)
    {
      var f := forwards[i];
      var c := caches(KeyOf(f));
      ghost var before := s;
      assert forwards[..i + 1] == forwards[..i] + [f] && forwards[..i + 1][..i] == forwards[..i];
      if Pending(c) {
        s := s.(pending := s.pending + [f.name]);
      } else if !c.synced {
        s := s.(unsatisfied := s.unsatisfied + [Unsatisfied(f.name, WatchUnsynced)]);
      } else {
        var target := SelectEndpoint(c, node, f.portName, isIP);
        if target.None? {
          var ready := FindReadyEndpoint(c, node);
          s := s.(unsatisfied := s.unsatisfied + [Unsatisfied(f.name, if ready then PortNotFound else NoLocalPod)]);
        } else {
          s := s.(resolved := s.resolved + [Resolved(f.name, f.publicPort, f.protocol, target.value)]);
        }
      }
      StillRight(forwards[..i], f, caches, node, isIP, before);
    }
    assert forwards[..|forwards|] == forwards;
  }

  lemma StillRight(forwards: seq<Forward>, f: Forward, caches: Key -> Cache, node: string, isIP: string -> bool,
                   s: Snapshot)
    requires Partitions(forwards, caches, node, isIP, s)
    ensures forall r :: r in s.resolved ==> ResolvedRight(forwards + [f], caches, node, isIP, r)
    ensures forall u :: u in s.unsatisfied ==> ReasonRight(forwards + [f], caches, node, u)
  {
    forall r | r in s.resolved ensures ResolvedRight(forwards + [f], caches, node, isIP, r) {
      assert ResolvedRight(forwards, caches, node, isIP, r);
    }
    forall u | u in s.unsatisfied ensures ReasonRight(forwards + [f], caches, node, u) {
      assert ReasonRight(forwards, caches, node, u);
    }
  }

  // ---------------------------------------------------------------- scores

  ghost function ServedCount(forwards: seq<Forward>, caches: Key -> Cache, node: string, isIP: string -> bool): nat {
    if forwards == [] then 0
    else
      var f := forwards[|forwards| - 1];
      ServedCount(forwards[..|forwards| - 1], caches, node, isIP) +
          (if Served(caches(KeyOf(f)), node, f, isIP) then 1 else 0)
  }

  method CountServed(forwards: seq<Forward>, caches: Key -> Cache, node: string, isIP: string -> bool) returns (n: nat)
    ensures n == ServedCount(forwards, caches, node, isIP)
  {
    n := 0;
    for i := 0 to |forwards|
      invariant n == ServedCount(forwards[..i], caches, node, isIP)
    {
      var f := forwards[i];
      assert forwards[..i + 1][..i] == forwards[..i];
      var target := SelectEndpoint(caches(KeyOf(f)), node, f.portName, isIP);
      if target.Some? {
        n := n + 1;
      }
    }
    assert forwards[..|forwards|] == forwards;
  }

  lemma {:induction false} FullScoreMeansAllServed(forwards: seq<Forward>, caches: Key -> Cache, node: string,
                                                isIP: string -> bool)
    ensures ServedCount(forwards, caches, node, isIP) <= |forwards|
    ensures ServedCount(forwards, caches, node, isIP) == |forwards| <==> forall f :: f in forwards ==>
            Served(caches(KeyOf(f)), node, f, isIP)
  {
    if forwards != [] {
      var init := forwards[..|forwards| - 1];
      FullScoreMeansAllServed(init, caches, node, isIP);
      assert forwards == init + [forwards[|forwards| - 1]];
    }
  }

  lemma {:induction false} UnsatisfiedNamesEmpty(forwards: seq<Forward>, caches: Key -> Cache, node: string,
                                                isIP: string -> bool)
    ensures NamesWith(forwards, caches, node, isIP, 1) == [] <==> forall f :: f in forwards ==>
            Fate(caches(KeyOf(f)), node, f, isIP) != 1
  {
    if forwards != [] {
      var init := forwards[..|forwards| - 1];
      UnsatisfiedNamesEmpty(init, caches, node, isIP);
      assert forwards == init + [forwards[|forwards| - 1]];
    }
  }

  /** With every watch synced, a node's score is full exactly when its snapshot leaves nothing unsatisfied. */
  lemma ScoreAgreesWithSnapshot(forwards: seq<Forward>, caches: Key -> Cache, node: string, isIP: string -> bool,
                                s: Snapshot)
    requires Partitions(forwards, caches, node, isIP, s) && forall f :: f in forwards ==> caches(KeyOf(f)).synced
    ensures ServedCount(forwards, caches, node, isIP) == |forwards| <==> s.unsatisfied == []
  {
    FullScoreMeansAllServed(forwards, caches, node, isIP);
    UnsatisfiedNamesEmpty(forwards, caches, node, isIP);
    assert s.unsatisfied == [] <==> UnsatisfiedNames(s.unsatisfied) == [];
  }

  /** Scores of every live node and of the watcher's own; a decision waits while `pending` is non-empty. */
  method Evaluate(forwards: seq<Forward>, caches: Key -> Cache, node: string, live: set<string>, isIP: string -> bool)
    returns (v: ElectionChoice.View, pending: seq<string>)
    ensures v.forwardCount == |forwards| && v.live == live && v.scores.Keys == live + {node}
    ensures forall n :: n in v.scores ==> v.scores[n] == ServedCount(forwards, caches, n, isIP)
    ensures pending == NamesWith(forwards, caches, node, isIP, 2)
  {
    pending := [];
    for i := 0 to |forwards|
      invariant pending == NamesWith(forwards[..i], caches, node, isIP, 2)
    {
      assert forwards[..i + 1][..i] == forwards[..i];
      if Pending(caches(KeyOf(forwards[i]))) {
        pending := pending + [forwards[i].name];
      }
    }
    assert forwards[..|forwards|] == forwards;
    var scores: map<string, nat> := map[];
    var rest := live;
    while rest != {}
      invariant rest <= live && scores.Keys == live - rest
      invariant forall n :: n in scores ==> scores[n] == ServedCount(forwards, caches, n, isIP)
      decreases |rest|
    {
      var n :| n in rest;
      var score := CountServed(forwards, caches, n, isIP);
      scores := scores[n := score];
      rest := rest - {n};
    }
    if node !in scores {
      var score := CountServed(forwards, caches, node, isIP);
      scores := scores[node := score];
    }
    v := ElectionChoice.View(|forwards|, live, scores);
  }

  /** On a synced view, a live node is fully eligible exactly when an apply there would satisfy every forward. */
  lemma FitMeansSatisfied(forwards: seq<Forward>, caches: Key -> Cache, node: string, isIP: string -> bool,
                          v: ElectionChoice.View, s: Snapshot)
    requires Partitions(forwards, caches, node, isIP, s) && forall f :: f in forwards ==> caches(KeyOf(f)).synced
    requires node in v.live && node in v.scores && v.scores[node] == ServedCount(forwards, caches, node, isIP)
             && v.forwardCount == |forwards|
    ensures ElectionChoice.Fit(v, node) <==> s.unsatisfied == []
  {
    ScoreAgreesWithSnapshot(forwards, caches, node, isIP, s);
  }

  // ---------------------------------------------------------------- re-keying

  /** Every informer has a serial number of its own, handed out already. */
  ghost predicate Serials(slices: map<Key, nat>, started: nat) {
    && (forall k :: k in slices ==> slices[k] < started)
    && (forall k, l :: k in slices && l in slices && slices[k] == slices[l] ==> k == l)
  }

  lemma SerialsAdd(slices: map<Key, nat>, started: nat, key: Key)
    requires Serials(slices, started)
    ensures Serials(slices[key := started], started + 1)
  {}

  /** The forwards and the running informers, by key; an informer is known by its serial number. */
  class Watcher {
    var forwards: seq<Forward>
    var slices: map<Key, nat>
    var started: nat

    constructor ()
      ensures Valid() && forwards == [] && slices == map[]
    {
      forwards, slices, started := [], map[], 0;
    }

    /** Exactly the keys of the forwards have an informer, each its own. */
    ghost predicate Valid()
      reads this
    {
      && (forall k :: k in slices <==> exists f :: f in forwards && KeyOf(f) == k)
      && Serials(slices, started)
    }

    /** Informers still wanted keep running; the others stop, missing ones start. */
    method SetForwards(next: seq<Forward>)
      requires Valid()
      modifies this
      ensures Valid() && forwards == next
      ensures forall k :: k in slices && k in old(slices) ==> slices[k] == old(slices)[k]
      ensures forall k :: k in slices && k !in old(slices) ==> slices[k] >= old(started)
      ensures next == old(forwards) ==> slices == old(slices) && started == old(started)
    {
      if forwards == next {
        return;
      }
      var want: set<Key> := {};
      for i := 0 to |next|
        invariant forall k :: k in want <==> exists f :: f in next[..i] && KeyOf(f) == k
      {
        assert next[..i + 1] == next[..i] + [next[i]];
        want := want + {KeyOf(next[i])};
      }
      assert next[..|next|] == next;
      StartMissing(want);
      StopExtra(want);
      forwards := next;
    }

    method StartMissing(want: set<Key>)
      requires Serials(slices, started)
      modifies this`slices, this`started
      ensures Serials(slices, started) && started >= old(started)
      ensures forall k :: k in slices <==> k in old(slices) || k in want
      ensures forall k :: k in slices ==> if k in old(slices) then slices[k] == old(slices)[k]
              else slices[k] >= old(started)
    {
      var rest := want;
      while rest != {}
        invariant rest <= want && Serials(slices, started) && started >= old(started)
        invariant forall k :: k in slices ==> k in old(slices) || k in want
        invariant forall k :: k in old(slices) || (k in want && k !in rest) ==> k in slices
        invariant forall k :: k in slices ==>
                  if k in old(slices) then slices[k] == old(slices)[k] else slices[k] >= old(started)
        decreases |rest|
      {
        var key :| key in rest;
        if key !in slices {
          SerialsAdd(slices, started, key);
          slices, started := slices[key := started], started + 1;
        }
        rest := rest - {key};
      }
    }

    method StopExtra(want: set<Key>)
      modifies this`slices
      ensures slices.Keys == old(slices.Keys) * want && forall k :: k in slices ==> slices[k] == old(slices)[k]
    {
      var rest := slices.Keys;
      while rest != {}
        invariant slices.Keys <= old(slices.Keys) && rest <= old(slices.Keys)
        invariant forall k :: k in old(slices) ==> (k in slices <==> k in want || k in rest)
        invariant forall k :: k in slices ==> slices[k] == old(slices)[k]
        decreases |rest|
      {
        var key :| key in rest;
        if key !in want {
          slices := slices - {key};
        }
        rest := rest - {key};
      }
    }
  }
}
