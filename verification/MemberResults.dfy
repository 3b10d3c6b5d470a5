/** What a completed pass publishes: independent of order, one entry per name, peers for exactly the live members. */
module MemberResults {
  import opened Text
  import opened Records
  import opened Discovery
  import opened Members
  import opened MemberSafety
  import opened MemberRuns
  import LinkConfig

  // ---------------------------------------------------------------- listing order

  ghost predicate Consistent(members: seq<Listed>) {
    forall x, y :: x in members && y in members && x.name == y.name ==> x == y
  }

  lemma SameEntriesByName(a: seq<Listed>, b: seq<Listed>)
    requires Consistent(a) && forall x :: x in a <==> x in b
    ensures ByName(a) == ByName(b)
  {
    var m, m' := ByName(a), ByName(b);
    forall n ensures n in m <==> n in m' {}
    forall n | n in m ensures m[n] == m'[n] {}
  }

  lemma {:induction false} AllocationReadsDetails(cfg: Config, store: Store, names: seq<string>, listed: map<string,
                                                Listed>, a: Snapshot, b: Snapshot, env: Env)
    requires a.details == b.details && forall n :: n in names ==> n in listed
    ensures AllocateAll(cfg, store, names, listed, a, env) == AllocateAll(cfg, store, names, listed, b, env)
    decreases |names|
  {
    if names != [] {
      var p := TryAllocate(cfg, store, names[0], listed[names[0]], a, env);
      assert p == TryAllocate(cfg, store, names[0], listed[names[0]], b, env);
      AllocationReadsDetails(cfg, p.store, names[1..], listed, a, b, env);
    }
  }

  lemma {:induction false} SettlementReadsDetails(cfg: Config, store: Store, names: seq<string>, listed: map<string,
                                                Listed>, a: Snapshot, b: Snapshot, env: Env)
    requires a.details == b.details
    ensures ProcessAll(cfg, store, names, listed, a, env) == ProcessAll(cfg, store, names, listed, b, env)
    decreases |names|
  {
    if names != [] {
      var before := Find(cfg, store, names[0]);
      var d := Decide(names[0], before, EntryOf(listed, names[0]), a, env);
      assert d == Decide(names[0], before, EntryOf(listed, names[0]), b, env);
      SettlementReadsDetails(cfg, Carry(cfg, store, names[0], before, d, env).store, names[1..], listed, a, b, env);
    }
  }

  lemma PassReadsDetails(cfg: Config, store: Store, listed: map<string, Listed>, a: Snapshot, b: Snapshot, desired: int,
                         lastAccepted: int, env: Env)
    requires a.details == b.details
    ensures ReconcileUsable(cfg, store, listed, a, desired, lastAccepted, env) ==
            ReconcileUsable(cfg, store, listed, b, desired, lastAccepted, env)
  {
    var candidates, names := SortedNames(Candidates(cfg, store, listed)), SortedNames(AllNames(cfg, store, listed));
    if !CannotRead(cfg, AllNames(cfg, store, listed), env) {
      PhasesReadDetails(cfg, store, candidates, names, listed, a, b,
          ComputeTargetSize(desired, cfg.capacity, lastAccepted), env);
    }
  }

  lemma PhasesReadDetails(cfg: Config, store: Store, candidates: seq<string>, names: seq<string>, listed: map<string,
                          Listed>, a: Snapshot, b: Snapshot, size: int, env: Env)
    requires a.details == b.details && forall n :: n in candidates ==> n in listed
    ensures Phases(cfg, store, candidates, names, listed, a, size, env) ==
            Phases(cfg, store, candidates, names, listed, b, size, env)
  {
    AllocationReadsDetails(cfg, store, candidates, listed, a, b, env);
    SettlementReadsDetails(cfg, AllocateAll(cfg, store, candidates, listed, a, env).store, names, listed, a, b, env);
  }

  /**
   * The whole pass, every write and the published result, depends only on the set of listed entries: order and
   * repetition of entries that agree name by name change nothing.
   */
  lemma ListingOrderIrrelevant(cfg: Config, store: Store, a: Snapshot, b: Snapshot, desired: int, lastAccepted: int,
                               env: Env)
    requires a.details == b.details && Consistent(a.members) && forall x :: x in a.members <==> x in b.members
    ensures Reconcile(cfg, store, Some(a), desired, lastAccepted, env) ==
            Reconcile(cfg, store, Some(b), desired, lastAccepted, env)
  {
    SameEntriesByName(a.members, b.members);
    PassReadsDetails(cfg, store, ByName(a.members), a, b, desired, lastAccepted, env);
  }

  /** Entries that disagree under one name can always be reordered into a listing with another name map. */
  lemma ListingOrderMatters(a: seq<Listed>, x: Listed, y: Listed) returns (b: seq<Listed>)
    requires x in a && y in a && x.name == y.name && x != y
    ensures multiset(a) == multiset(b) && ByName(a) != ByName(b)
  {
    var w := if ByName(a)[x.name] == x then y else x;
    var k :| 0 <= k < |a| && a[k] == w;
    b := a[..k] + a[k + 1..] + [w];
    MovedLast(a, k);
    LastWins(a[..k] + a[k + 1..], w);
  }

  /**
   * Where they disagree on whether a recorded member is there, another order is another pass: its record, not yet
   * pending, ends up differently, unless both passes are cut short.
   */
  lemma ListingOrderDecides(cfg: Config, store: Store, a: Snapshot, x: Listed, y: Listed, desired: int,
                            lastAccepted: int,
                            env: Env)
    returns (b: Snapshot)
    requires AddressesReady(cfg) && Safe(cfg, store)
    requires x in a.members && y in a.members && x.name == y.name && x.verdict.Present? && y.verdict.Departed?
    requires Find(cfg, store, x.name).Some? && !Find(cfg, store, x.name).value.pendingConfirmation
    ensures multiset(a.members) == multiset(b.members) && a.details == b.details
    ensures var p, q := Reconcile(cfg, store, Some(a), desired, lastAccepted, env),
                        Reconcile(cfg, store, Some(b), desired, lastAccepted, env);
            p == q ==> p.outcome.Aborted?
  {
    var n, m := x.name, ByName(a.members);
    var w := if m[n].verdict.Present? then y else x;
    var k :| 0 <= k < |a.members| && a.members[k] == w;
    b := Snapshot(a.members[..k] + a.members[k + 1..] + [w], a.details);
    MovedLast(a.members, k);
    LastWins(a.members[..k] + a.members[k + 1..], w);
    var _ := UsableEffect(cfg, store, m, a, desired, lastAccepted, env, n);
    var _ := UsableEffect(cfg, store, ByName(b.members), b, desired, lastAccepted, env, n);
    EntriesDecide(Find(cfg, store, n).value, m[n], w, a, b, env);
  }

  lemma EntriesDecide(r: Record, x: Listed, y: Listed, a: Snapshot, b: Snapshot, env: Env)
    requires !r.pendingConfirmation && 0 <= r.departureCount
             && (if x.verdict.Present? then y.verdict.Departed? else y.verdict.Present?)
    ensures Decide(r.name, Some(r), Some(x), a, env).after != Decide(r.name, Some(r), Some(y), b, env).after
  {}

  lemma MovedLast(a: seq<Listed>, k: nat)
    requires k < |a|
    ensures multiset(a) == multiset(a[..k] + a[k + 1..] + [a[k]])
  {
    assert a == a[..k] + [a[k]] + a[k + 1..];
  }

  lemma LastWins(init: seq<Listed>, w: Listed)
    ensures w.name in ByName(init + [w]) && ByName(init + [w])[w.name] == w
  {
    assert (init + [w])[|init|] == w;
  }

  // ---------------------------------------------------------------- slots in name order

  /** The free slots below a capacity, lowest first. */
  function FreeSlots(occupied: set<int>, capacity: nat): seq<nat> {
    if capacity == 0 then []
    else FreeSlots(occupied, capacity - 1) + (if capacity - 1 in occupied then [] else [capacity - 1])
  }

  lemma {:induction false} FreeSlotsMeaning(occupied: set<int>, capacity: nat)
    ensures var s := FreeSlots(occupied, capacity);
            && (forall x: nat :: x in s <==> x < capacity && x !in occupied)
            && (forall i, j :: 0 <= i < j < |s| ==> s[i] < s[j])
  {
    if capacity > 0 {
      FreeSlotsMeaning(occupied, capacity - 1);
      var s := FreeSlots(occupied, capacity - 1);
      forall i | 0 <= i < |s| ensures s[i] < capacity - 1 { assert s[i] in s; }
    }
  }

  lemma LowestIsFirst(occupied: set<int>, capacity: nat)
    ensures LowestFreeSlot(occupied, capacity) == if FreeSlots(occupied, capacity) == [] then None
            else Some(FreeSlots(occupied, capacity)[0])
  {
    FreeSlotsMeaning(occupied, capacity);
    var s, r := FreeSlots(occupied, capacity), LowestFreeSlot(occupied, capacity);
    if r.Some? { assert r.value in s; }
    if s != [] { assert s[0] in s; }
  }

  lemma {:induction false} NoneLeft(occupied: set<int>, capacity: nat, extra: int)
    requires FreeSlots(occupied, capacity) == []
    ensures FreeSlots(occupied + {extra}, capacity) == []
  {
    if capacity > 0 { NoneLeft(occupied, capacity - 1, extra); }
  }

  lemma {:induction false} TakingFirstLeavesRest(occupied: set<int>, capacity: nat)
    requires FreeSlots(occupied, capacity) != []
    ensures FreeSlots(occupied + {FreeSlots(occupied, capacity)[0]}, capacity) == FreeSlots(occupied, capacity)[1..]
  {
    var s := FreeSlots(occupied, capacity - 1);
    if s == [] {
      NoneLeft(occupied, capacity - 1, capacity - 1);
    } else {
      TakingFirstLeavesRest(occupied, capacity - 1);
      FreeSlotsMeaning(occupied, capacity - 1);
      assert s[0] in s;
    }
  }

  /** No create meets an existing object, and none fails. */
  ghost predicate Unhindered(cfg: Config, store: Store, names: seq<string>, env: Env) {
    && (forall n :: n in names ==> Key(cfg, n).Some? && Key(cfg, n).value !in store)
    && (forall n :: n in names ==> !env.collides(n) && env.create(n).Done? && env.keypair(n).Some?)
    && (forall i, j :: 0 <= i < j < |names| ==> Key(cfg, names[i]) != Key(cfg, names[j]))
  }

  lemma OccupiedGrows(cfg: Config, store: Store, store': Store, name: string, slot: int)
    requires Find(cfg, store, name).None? && Find(cfg, store', name).Some? && Find(cfg, store', name).value.slot == slot
    requires forall m :: m != name ==> Find(cfg, store', m) == Find(cfg, store, m)
    ensures Occupied(View(cfg, store')) == Occupied(View(cfg, store)) + {slot}
  {
    var v, v' := View(cfg, store), View(cfg, store');
    forall s ensures s in Occupied(v') <==> s in Occupied(v) + {slot} {
      if s in Occupied(v') {
        var n :| n in v' && v'[n].slot == s;
        if n != name { assert n in v && v[n] == v'[n]; }
      }
      if s in Occupied(v) {
        var n :| n in v && v[n].slot == s;
        assert n in v' && v'[n] == v[n];
      }
      if s == slot { assert name in v' && v'[name].slot == s; }
    }
  }

  /** One unhindered attempt: the first free slot is taken, and only that one. */
  lemma UnhinderedStep(cfg: Config, store: Store, name: string, listed: Listed, snap: Snapshot, env: Env)
    requires AddressesReady(cfg) && Unhindered(cfg, store, [name], env) && Find(cfg, store, name).None?
    ensures var p := TryAllocate(cfg, store, name, listed, snap, env);
            var free := FreeSlots(Occupied(View(cfg, store)), cfg.capacity);
            && !p.aborted
            && (free == [] ==> p.store == store)
            && (free != [] ==>
                  && Find(cfg, p.store, name).Some? && Find(cfg, p.store, name).value.slot == free[0]
                  && FreeSlots(Occupied(View(cfg, p.store)), cfg.capacity) == free[1..]
                  && p.store.Keys == store.Keys + {Key(cfg, name).value})
  {
    assert name in [name];
    var occupied := Occupied(View(cfg, store));
    var free := FreeSlots(occupied, cfg.capacity);
    var p := TryAllocate(cfg, store, name, listed, snap, env);
    LowestIsFirst(occupied, cfg.capacity);
    TryAllocateEffect(cfg, store, name, listed, snap, env);
    if free != [] {
      OccupiedGrows(cfg, store, p.store, name, free[0]);
      TakingFirstLeavesRest(occupied, cfg.capacity);
    }
  }

  lemma UnhinderedRest(cfg: Config, store: Store, names: seq<string>, listed: map<string, Listed>, snap: Snapshot,
                       env: Env)
    requires AddressesReady(cfg) && Ascending(names) && Unhindered(cfg, store, names, env) && names != []
    requires forall n :: n in names ==> n in listed && Find(cfg, store, n).None?
    ensures var p := TryAllocate(cfg, store, names[0], listed[names[0]], snap, env);
            && Unhindered(cfg, p.store, names[1..], env) && names[0] !in names[1..]
                 && Unhindered(cfg, store, [names[0]], env)
            && forall m :: m in names[1..] ==> m in listed && Find(cfg, p.store, m).None?
  {
    var n, rest := names[0], names[1..];
    UnhinderedStep(cfg, store, n, listed[n], snap, env);
    TryAllocateEffect(cfg, store, n, listed[n], snap, env);
    var p := TryAllocate(cfg, store, n, listed[n], snap, env);
    forall m | m in rest ensures m in names && m != n && Find(cfg, p.store, m).None? && Key(cfg, m).Some?
        && Key(cfg, m).value !in p.store {
      LessTotal(n, m);
      var j :| 0 <= j < |rest| && rest[j] == m;
      assert m == names[j + 1];
    }
    forall i, j | 0 <= i < j < |rest| ensures Key(cfg, rest[i]) != Key(cfg, rest[j]) {
      assert rest[i] == names[i + 1] && rest[j] == names[j + 1];
    }
  }

  /** Without collisions or failures the i-th candidate in name order gets the i-th free slot, until slots run out. */
  lemma {:induction false} SlotsInNameOrder(cfg: Config, store: Store, names: seq<string>, listed: map<string, Listed>,
                                            snap: Snapshot, env: Env, i: nat)
    requires AddressesReady(cfg) && Ascending(names) && Unhindered(cfg, store, names, env) && i < |names|
    requires forall n :: n in names ==> n in listed && Find(cfg, store, n).None?
    ensures var p := AllocateAll(cfg, store, names, listed, snap, env);
            var free := FreeSlots(Occupied(View(cfg, store)), cfg.capacity);
            var r := Find(cfg, p.store, names[i]);
            !p.aborted && (if i < |free| then r.Some? && r.value.slot == free[i] else r.None?)
    decreases |names|
  {
    var n, rest := names[0], names[1..];
    var p := TryAllocate(cfg, store, n, listed[n], snap, env);
    UnhinderedRest(cfg, store, names, listed, snap, env);
    UnhinderedStep(cfg, store, n, listed[n], snap, env);
    if rest != [] {
      SlotsInNameOrder(cfg, p.store, rest, listed, snap, env, if i == 0 then 0 else i - 1);
      Untouched(cfg, p.store, rest, listed, snap, env, n);
    }
  }

  lemma {:induction false} Untouched(cfg: Config, store: Store, names: seq<string>, listed: map<string, Listed>,
                                     snap: Snapshot, env: Env, n: string)
    requires AddressesReady(cfg) && Ascending(names) && n !in names
    requires forall m :: m in names ==> m in listed && Find(cfg, store, m).None?
    ensures Find(cfg, AllocateAll(cfg, store, names, listed, snap, env).store, n) == Find(cfg, store, n)
    decreases |names|
  {
    if names != [] {
      var h := names[0];
      var p := TryAllocate(cfg, store, h, listed[h], snap, env);
      TryAllocateEffect(cfg, store, h, listed[h], snap, env);
      forall m | m in names[1..] ensures m in names && Find(cfg, p.store, m).None? { LessTotal(h, m); }
      if !p.aborted { Untouched(cfg, p.store, names[1..], listed, snap, env, n); }
    }
  }

  // ---------------------------------------------------------------- what is published

  predicate HoldsPeer(s: Status) { s.state.ActiveState? || s.state.RecreatingState? || s.state.DepartingState? }

  /** The members that keep a peer, in their order. */
  function PeerHolders(members: seq<Status>): seq<Status> {
    if members == [] then []
    else (if HoldsPeer(members[0]) then [members[0]] else []) + PeerHolders(members[1..])
  }

  /** Confirmed gone and deleted: the one way a name leaves the published list. */
  ghost predicate Released(rec: Option<Record>, listed: Option<Listed>, env: Env) {
    && rec.Some? && rec.value.pendingConfirmation && !IsPresent(listed)
    && env.absent(rec.value.name).Yes? && env.synced(rec.value.name).Yes? && env.remove(rec.value.name).Done?
  }

  ghost predicate Describes(s: Status, r: Record) {
    s.name == r.name && s.slot == r.slot && s.tunnelAddress == r.tunnelAddress && s.externalAddress == r.externalAddress
  }

  lemma DecisionShape(name: string, rec: Option<Record>, listed: Option<Listed>, snap: Snapshot, env: Env)
    requires rec.Some? ==> rec.value.name == name
    ensures var d := Decide(name, rec, listed, snap, env);
            && (d.status.None? <==> Released(rec, listed, env))
            && (d.status.Some? ==> d.status.value.name == name)
            && (d.live <==> d.status.Some? && HoldsPeer(d.status.value))
            && (d.live ==> d.after.Some? && Describes(d.status.value, d.after.value))
  {}

  ghost predicate Names(members: seq<Status>, n: string) { exists i :: 0 <= i < |members| && members[i].name == n }

  ghost predicate InNameOrder(members: seq<Status>) {
    forall i, j :: 0 <= i < j < |members| ==> Less(members[i].name, members[j].name)
  }

  /** The live records are those of the members that hold a peer, in the same order. */
  ghost predicate Matches(members: seq<Status>, live: seq<Record>) {
    var holders := PeerHolders(members);
    |holders| == |live| && forall i :: 0 <= i < |live| ==> Describes(holders[i], live[i])
  }

  ghost predicate Stays(cfg: Config, store: Store, listed: map<string, Listed>, env: Env, n: string) {
    !Released(Find(cfg, store, n), EntryOf(listed, n), env)
  }

  lemma ConsNames(s: Option<Status>, members: seq<Status>, n: string)
    ensures Names((if s.Some? then [s.value] else []) + members, n) <==>
            (s.Some? && s.value.name == n) || Names(members, n)
  {
    var all := (if s.Some? then [s.value] else []) + members;
    var shift := if s.Some? then 1 else 0;
    if Names(members, n) {
      var i :| 0 <= i < |members| && members[i].name == n;
      assert all[i + shift].name == n;
    }
    if s.Some? && s.value.name == n { assert all[0].name == n; }
    if Names(all, n) {
      var i :| 0 <= i < |all| && all[i].name == n;
      if i >= shift { assert members[i - shift].name == n; }
    }
  }

  lemma {:induction false} PublishedNames(cfg: Config, store: Store, names: seq<string>, listed: map<string, Listed>,
                                          snap: Snapshot, env: Env, n: string)
    ensures Names(Published(cfg, store, names, listed, snap, env).0, n) <==>
            n in names && Stays(cfg, store, listed, env, n)
    decreases |names|
  {
    if names != [] {
      var h := names[0];
      PublishedNames(cfg, store, names[1..], listed, snap, env, n);
      DecisionShape(h, Find(cfg, store, h), EntryOf(listed, h), snap, env);
      ConsNames(MemberRuns.Verdict(cfg, store, listed, snap, env, h).status,
          Published(cfg, store, names[1..], listed, snap, env).0, n);
      assert n in names <==> n == h || n in names[1..];
    }
  }

  lemma {:induction false} PublishedOrder(cfg: Config, store: Store, names: seq<string>, listed: map<string, Listed>,
                                          snap: Snapshot, env: Env)
    requires Ascending(names)
    ensures var pub := Published(cfg, store, names, listed, snap, env);
            InNameOrder(pub.0) && Matches(pub.0, pub.1)
    decreases |names|
  {
    if names != [] {
      var h, rest := names[0], Published(cfg, store, names[1..], listed, snap, env);
      var d := MemberRuns.Verdict(cfg, store, listed, snap, env, h);
      PublishedOrder(cfg, store, names[1..], listed, snap, env);
      DecisionShape(h, Find(cfg, store, h), EntryOf(listed, h), snap, env);
      forall i | 0 <= i < |rest.0| ensures Less(h, rest.0[i].name) {
        PublishedNames(cfg, store, names[1..], listed, snap, env, rest.0[i].name);
      }
      ConsMatches(d, rest.0, rest.1);
    }
  }

  lemma ConsMatches(d: Decision, members: seq<Status>, live: seq<Record>)
    requires Matches(members, live) && (d.live <==> d.status.Some? && HoldsPeer(d.status.value))
    requires d.live ==> d.after.Some? && Describes(d.status.value, d.after.value)
    ensures Matches((if d.status.Some? then [d.status.value] else []) + members,
            (if d.live && d.after.Some? then [d.after.value] else []) + live)
  {
    assert d.status.Some? ==> ([d.status.value] + members)[1..] == members;
    assert d.status.None? ==> [] + members == members;
  }

  lemma {:induction false} HoldersInOrder(members: seq<Status>)
    requires InNameOrder(members)
    ensures InNameOrder(PeerHolders(members)) && forall s :: s in PeerHolders(members) ==> s in members
  {
    if members != [] {
      var rest := PeerHolders(members[1..]);
      HoldersInOrder(members[1..]);
      forall i | 0 <= i < |rest| ensures Less(members[0].name, rest[i].name) {
        assert rest[i] in members[1..];
      }
    }
  }

  // ---------------------------------------------------------------- the pass as a whole

  /** A completed pass publishes what its names' decisions say, taken on the store the allocation left. */
  lemma PhasesPublish(cfg: Config, store: Store, candidates: seq<string>, names: seq<string>, listed: map<string,
                      Listed>, snap: Snapshot, size: int, env: Env)
    returns (mid: Store, live: seq<Record>)
    requires AddressesReady(cfg) && Safe(cfg, store) && Ascending(candidates) && Ascending(names)
    requires forall m :: m in candidates ==>
             m in names && m in listed && listed[m].verdict.Present? && Find(cfg, store, m).None?
    requires Phases(cfg, store, candidates, names, listed, snap, size, env).outcome.Usable?
    ensures var result := Phases(cfg, store, candidates, names, listed, snap, size, env).outcome.result;
            && Safe(cfg, mid) && (result.members, live) == Published(cfg, mid, names, listed, snap, env)
            && LiveAre(cfg, result, live) && result.targetSize == size
    ensures forall n :: Stays(cfg, mid, listed, env, n) == Stays(cfg, store, listed, env, n)
  {
    var p := AllocateAll(cfg, store, candidates, listed, snap, env);
    AllocateAllSafe(cfg, store, candidates, listed, snap, env);
    AllocateAllEffect(cfg, store, candidates, listed, snap, env);
    ProcessAllEffect(cfg, p.store, names, listed, snap, env);
    mid, live := p.store, ProcessAll(cfg, p.store, names, listed, snap, env).live;
  }

  lemma UsablePublish(cfg: Config, store: Store, listed: map<string, Listed>, snap: Snapshot, desired: int,
                      lastAccepted: int, env: Env)
    returns (mid: Store, live: seq<Record>, names: seq<string>)
    requires AddressesReady(cfg) && Safe(cfg, store)
    requires ReconcileUsable(cfg, store, listed, snap, desired, lastAccepted, env).outcome.Usable?
    ensures var result := ReconcileUsable(cfg, store, listed, snap, desired, lastAccepted, env).outcome.result;
            && Safe(cfg, mid) && (result.members, live) == Published(cfg, mid, names, listed, snap, env)
            && LiveAre(cfg, result, live) && result.targetSize == ComputeTargetSize(desired, cfg.capacity, lastAccepted)
    ensures Ascending(names) && forall n :: n in names <==> n in AllNames(cfg, store, listed)
    ensures forall n :: Stays(cfg, mid, listed, env, n) == Stays(cfg, store, listed, env, n)
  {
    var candidates := SortedNames(Candidates(cfg, store, listed));
    names := SortedNames(AllNames(cfg, store, listed));
    NamesCover(cfg, store, listed, candidates, names, "");
    mid, live := PhasesPublish(cfg, store, candidates, names, listed, snap,
        ComputeTargetSize(desired, cfg.capacity, lastAccepted), env);
  }

  /** Every name covered, once, in name order, unless released; peers and roster for exactly the peer holders. */
  ghost predicate ResultShape(result: Result, published: set<string>) {
    var holders := PeerHolders(result.members);
    && InNameOrder(result.members)
    && (forall n :: Names(result.members, n) <==> n in published)
    && |result.peers| == |result.roster| == |holders|
    && (forall i :: 0 <= i < |holders| ==>
          && result.roster[i].name == holders[i].name
               && result.roster[i].slot == holders[i].slot == result.peers[i].slot
          && result.roster[i].tunnelAddress == holders[i].tunnelAddress == result.peers[i].tunnelAddress
          && result.peers[i].externalAddress == holders[i].externalAddress)
  }

  /**
   * Every name listed or tracked is published exactly once, in name order, unless this pass released it; peers and
   * roster entries are those of the Active, Recreating and Departing members, in the same order.
   */
  lemma PassPublishes(cfg: Config, store: Store, listed: map<string, Listed>, snap: Snapshot, desired: int,
                      lastAccepted: int, env: Env)
    requires AddressesReady(cfg) && Safe(cfg, store)
    requires ReconcileUsable(cfg, store, listed, snap, desired, lastAccepted, env).outcome.Usable?
    ensures var all := AllNames(cfg, store, listed);
            ResultShape(ReconcileUsable(cfg, store, listed, snap, desired, lastAccepted, env).outcome.result,
                        set n | n in all && Stays(cfg, store, listed, env, n))
  {
    var mid, live, names := UsablePublish(cfg, store, listed, snap, desired, lastAccepted, env);
    var all := AllNames(cfg, store, listed);
    PublishedShape(cfg, mid, names, listed, snap, env,
        ReconcileUsable(cfg, store, listed, snap, desired, lastAccepted, env).outcome.result,
                   live, set n | n in all && Stays(cfg, store, listed, env, n));
  }

  lemma PublishedShape(cfg: Config, store: Store, names: seq<string>, listed: map<string, Listed>, snap: Snapshot,
                       env: Env, result: Result, live: seq<Record>, published: set<string>)
    requires Ascending(names) && LiveAre(cfg, result, live)
    requires (result.members, live) == Published(cfg, store, names, listed, snap, env)
    requires forall n :: n in published <==> n in names && Stays(cfg, store, listed, env, n)
    ensures ResultShape(result, published)
  {
    PublishedOrder(cfg, store, names, listed, snap, env);
    forall n ensures Names(result.members, n) <==> n in published {
      PublishedNames(cfg, store, names, listed, snap, env, n);
    }
  }

  // ---------------------------------------------------------------- what is rendered

  lemma LiveRecord(cfg: Config, store: Store, names: seq<string>, listed: map<string, Listed>, snap: Snapshot, env: Env,
                   r: Record)
    requires Safe(cfg, store) && r in Published(cfg, store, names, listed, snap, env).1
    ensures Find(cfg, store, r.name).Some? && Find(cfg, store, r.name).value.slot == r.slot && Kept(cfg, r)
  {
    PublishedLive(cfg, store, names, listed, snap, env, r);
    DecideKeeps(cfg, r.name, Find(cfg, store, r.name), EntryOf(listed, r.name), snap, env);
  }

  lemma LiveSlotsDiffer(cfg: Config, store: Store, names: seq<string>, listed: map<string, Listed>, snap: Snapshot,
                        env: Env, i: nat, j: nat)
    requires Safe(cfg, store) && Ascending(names)
    requires i < j < |Published(cfg, store, names, listed, snap, env).1|
    ensures var live := Published(cfg, store, names, listed, snap, env).1; live[i].slot != live[j].slot
  {
    var pub := Published(cfg, store, names, listed, snap, env);
    PublishedOrder(cfg, store, names, listed, snap, env);
    HoldersInOrder(pub.0);
    LessTotal(pub.1[i].name, pub.1[j].name);
    LiveRecord(cfg, store, names, listed, snap, env, pub.1[i]);
    LiveRecord(cfg, store, names, listed, snap, env, pub.1[j]);
  }

  /** The peers of a completed pass always pass the link's own validation: keyed, in range, on distinct slots. */
  lemma RenderedPeersValidate(cfg: Config, store: Store, listed: map<string, Listed>, snap: Snapshot, desired: int,
                              lastAccepted: int, env: Env, local: bool, port: nat)
    requires AddressesReady(cfg) && Safe(cfg, store)
    requires ReconcileUsable(cfg, store, listed, snap, desired, lastAccepted, env).outcome.Usable?
    ensures LinkConfig.SlotsValid(LinkConfig.FleetLinkPeers(local, port,
              ReconcileUsable(cfg, store, listed, snap, desired, lastAccepted, env).outcome.result.peers))
  {
    var mid, live, names := UsablePublish(cfg, store, listed, snap, desired, lastAccepted, env);
    LivePeersValidate(cfg, mid, names, listed, snap, env, local, port);
  }

  lemma LivePeersValidate(cfg: Config, store: Store, names: seq<string>, listed: map<string, Listed>, snap: Snapshot,
                          env: Env, local: bool, port: nat)
    requires AddressesReady(cfg) && Safe(cfg, store) && Ascending(names)
    ensures LinkConfig.SlotsValid(LinkConfig.FleetLinkPeers(local, port,
            Peers(Published(cfg, store, names, listed, snap, env).1)))
  {
    var live := Published(cfg, store, names, listed, snap, env).1;
    forall i | 0 <= i < |live| ensures live[i].publicKey != "" && 0 <= live[i].slot < cfg.capacity {
      LiveRecord(cfg, store, names, listed, snap, env, live[i]);
    }
    forall i, j | 0 <= i < j < |live| ensures live[i].slot != live[j].slot {
      LiveSlotsDiffer(cfg, store, names, listed, snap, env, i, j);
    }
  }
}
