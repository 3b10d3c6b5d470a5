/** Slots, addresses and identities stay sound after every single write of a pass, aborted ones included. */
module MemberSafety {
  import opened Text
  import opened Records
  import opened Discovery
  import opened Members
  import Addresses

  // ---------------------------------------------------------------- one write touches one name

  lemma FindAfterWrite(cfg: Config, store: Store, r: Record, m: string)
    requires Key(cfg, r.name).Some? && Owns(cfg, r, r.name)
    requires Key(cfg, r.name).value !in store || Find(cfg, store, r.name).Some?
    ensures Find(cfg, store[Key(cfg, r.name).value := r], m) == if m == r.name then Some(r) else Find(cfg, store, m)
  {}

  lemma FindAfterDelete(cfg: Config, store: Store, n: string, m: string)
    requires Find(cfg, store, n).Some?
    ensures Find(cfg, store - {Key(cfg, n).value}, m) == if m == n then None else Find(cfg, store, m)
  {}

  // ---------------------------------------------------------------- what holds between writes

  /** The address list covers every slot of the capacity, as TunnelAddresses returns it. */
  ghost predicate AddressesReady(cfg: Config) {
    cfg.capacity <= Addresses.CAPACITY_LIMIT && cfg.capacity <= |cfg.eligible| + 1
  }

  ghost predicate Kept(cfg: Config, r: Record) {
    && 0 <= r.slot < cfg.capacity && SlotAddress(cfg, r.slot) == Some(r.tunnelAddress)
    && r.publicKey != ""
    && 0 <= r.departureCount <= 3 && (!r.pendingConfirmation ==> r.departureCount <= 2)
  }

  ghost predicate Safe(cfg: Config, store: Store) {
    && (forall n :: Find(cfg, store, n).Some? ==> Kept(cfg, Find(cfg, store, n).value))
    && (forall m, n :: m != n && Find(cfg, store, m).Some? && Find(cfg, store, n).Some? ==>
          Find(cfg, store, m).value.slot != Find(cfg, store, n).value.slot)
  }

  /** A record found on both sides is still the same allocation. */
  ghost predicate Stable(cfg: Config, before: Store, after: Store) {
    forall n :: Find(cfg, before, n).Some? && Find(cfg, after, n).Some? ==>
      SameAllocation(Find(cfg, before, n).value, Find(cfg, after, n).value)
  }

  /** From `store` through every state of `trail` to `end`: each state safe, each step stable. */
  ghost predicate SafeTrail(cfg: Config, store: Store, trail: seq<Store>, end: Store)
    decreases |trail|
  {
    if trail == [] then end == store
    else Safe(cfg, trail[0]) && Stable(cfg, store, trail[0]) && SafeTrail(cfg, trail[0], trail[1..], end)
  }

  lemma {:induction false} TrailsJoin(cfg: Config, a: Store, s: seq<Store>, b: Store, t: seq<Store>, c: Store)
    requires SafeTrail(cfg, a, s, b) && SafeTrail(cfg, b, t, c)
    ensures SafeTrail(cfg, a, s + t, c)
    decreases |s|
  {
    if s == [] {
      assert s + t == t;
    } else {
      TrailsJoin(cfg, s[0], s[1..], b, t, c);
      assert (s + t)[1..] == s[1..] + t;
    }
  }

  lemma {:induction false} TrailEndsSafe(cfg: Config, a: Store, s: seq<Store>, b: Store)
    requires SafeTrail(cfg, a, s, b) && Safe(cfg, a)
    ensures Safe(cfg, b)
    decreases |s|
  {
    if s != [] { TrailEndsSafe(cfg, s[0], s[1..], b); }
  }

  // ---------------------------------------------------------------- allocation

  lemma OccupiedSlots(cfg: Config, store: Store, n: string)
    requires Find(cfg, store, n).Some?
    ensures Find(cfg, store, n).value.slot in Occupied(View(cfg, store))
  {
    var v := View(cfg, store);
    assert n in v && v[n].slot in Occupied(v);
  }

  /**
   * An allocation adds at most this one name, on a slot nobody holds, and never runs out of addresses below capacity.
   */
  lemma TryAllocateEffect(cfg: Config, store: Store, name: string, listed: Listed, snap: Snapshot, env: Env)
    requires AddressesReady(cfg) && Find(cfg, store, name).None?
    ensures var p := TryAllocate(cfg, store, name, listed, snap, env);
            && p.trail == (if p.store == store then [] else [p.store])
            && (forall m :: m != name ==> Find(cfg, p.store, m) == Find(cfg, store, m))
            && (Find(cfg, p.store, name).Some? ==>
                  var r := Find(cfg, p.store, name).value;
                  && Kept(cfg, r) && r.departureCount == 0 && !r.pendingConfirmation
                  && LowestFreeSlot(Occupied(View(cfg, store)), cfg.capacity) == Some(r.slot))
  {
    var slot := LowestFreeSlot(Occupied(View(cfg, store)), cfg.capacity);
    var p := TryAllocate(cfg, store, name, listed, snap, env);
    if p.trail != [] {
      var r := p.store[Key(cfg, name).value];
      forall m ensures Find(cfg, p.store, m) == if m == name then Some(r) else Find(cfg, store, m) {
        FindAfterWrite(cfg, store, r, m);
      }
      assert Find(cfg, p.store, name) == Some(r);
      assert p.store != store;
    }
  }

  lemma TryAllocateSafe(cfg: Config, store: Store, name: string, listed: Listed, snap: Snapshot, env: Env)
    requires AddressesReady(cfg) && Safe(cfg, store) && Find(cfg, store, name).None?
    ensures var p := TryAllocate(cfg, store, name, listed, snap, env);
            SafeTrail(cfg, store, p.trail, p.store) && Safe(cfg, p.store)
  {
    TryAllocateEffect(cfg, store, name, listed, snap, env);
    var p := TryAllocate(cfg, store, name, listed, snap, env);
    if Find(cfg, p.store, name).Some? {
      forall m | m != name && Find(cfg, store, m).Some?
        ensures Find(cfg, store, m).value.slot != Find(cfg, p.store, name).value.slot
      {
        OccupiedSlots(cfg, store, m);
      }
    }
    assert p.trail != [] ==> p.trail[1..] == [];
  }

  lemma {:induction false} AllocateAllSafe(cfg: Config, store: Store, names: seq<string>, listed: map<string, Listed>,
                                           snap: Snapshot, env: Env)
    requires AddressesReady(cfg) && Safe(cfg, store) && Ascending(names)
    requires forall n :: n in names ==> n in listed && Find(cfg, store, n).None?
    ensures var p := AllocateAll(cfg, store, names, listed, snap, env);
            && SafeTrail(cfg, store, p.trail, p.store) && Safe(cfg, p.store)
            && (forall m :: m !in names ==> Find(cfg, p.store, m) == Find(cfg, store, m))
    decreases |names|
  {
    if names != [] {
      var n := names[0];
      var p := TryAllocate(cfg, store, n, listed[n], snap, env);
      TryAllocateSafe(cfg, store, n, listed[n], snap, env);
      TryAllocateEffect(cfg, store, n, listed[n], snap, env);
      if !p.aborted {
        forall m | m in names[1..] ensures m in names && Find(cfg, p.store, m).None? {
          LessTotal(n, m);
        }
        AllocateAllSafe(cfg, p.store, names[1..], listed, snap, env);
        var q := AllocateAll(cfg, p.store, names[1..], listed, snap, env);
        TrailsJoin(cfg, store, p.trail, p.store, q.trail, q.store);
      }
    }
  }

  // ---------------------------------------------------------------- processing

  /** A decision keeps the allocation or drops it whole, and keeps the counter where it belongs. */
  lemma DecideKeeps(cfg: Config, name: string, rec: Option<Record>, listed: Option<Listed>, snap: Snapshot, env: Env)
    requires rec.Some? ==> Kept(cfg, rec.value) && Owns(cfg, rec.value, name)
    ensures var d := Decide(name, rec, listed, snap, env);
            && (d.after.Some? ==>
                  rec.Some? && SameAllocation(rec.value, d.after.value) && Kept(cfg, d.after.value)
                  && Owns(cfg, d.after.value, name))
            && (d.live ==> d.after.Some?)
  {}

  lemma CarryEffect(cfg: Config, store: Store, name: string, d: Decision, env: Env)
    requires d.after.Some? ==> Find(cfg, store, name).Some? && Owns(cfg, d.after.value, name)
    ensures var p := Carry(cfg, store, name, Find(cfg, store, name), d, env);
            && p.trail == (if p.store == store then [] else [p.store])
            && (forall m :: m != name ==> Find(cfg, p.store, m) == Find(cfg, store, m))
            && (Find(cfg, p.store, name) == d.after || (p.aborted && p.store == store))
            && (!p.aborted ==> Find(cfg, p.store, name) == d.after)
  {
    var before := Find(cfg, store, name);
    var p := Carry(cfg, store, name, before, d, env);
    if before != d.after {
      if d.after.None? {
        forall m ensures Find(cfg, store - {Key(cfg, name).value}, m) == if m == name then None
            else Find(cfg, store, m) {
          FindAfterDelete(cfg, store, name, m);
        }
      } else {
        forall m ensures Find(cfg, store[Key(cfg, name).value := d.after.value], m) == if m == name then d.after
            else Find(cfg, store, m) {
          FindAfterWrite(cfg, store, d.after.value, m);
        }
      }
    }
    assert Find(cfg, p.store, name) != Find(cfg, store, name) ==> p.store != store;
  }

  lemma CarrySafe(cfg: Config, store: Store, name: string, listed: Option<Listed>, snap: Snapshot, env: Env)
    requires Safe(cfg, store)
    ensures var before := Find(cfg, store, name);
            var p := Carry(cfg, store, name, before, Decide(name, before, listed, snap, env), env);
            SafeTrail(cfg, store, p.trail, p.store) && Safe(cfg, p.store)
  {
    var before := Find(cfg, store, name);
    var d := Decide(name, before, listed, snap, env);
    var p := Carry(cfg, store, name, before, d, env);
    DecideKeeps(cfg, name, before, listed, snap, env);
    CarryEffect(cfg, store, name, d, env);
    forall n | Find(cfg, p.store, n).Some?
      ensures Find(cfg, store, n).Some? && SameAllocation(Find(cfg, store, n).value, Find(cfg, p.store, n).value)
      ensures Kept(cfg, Find(cfg, p.store, n).value)
    {}
    assert p.trail != [] ==> p.trail[1..] == [];
  }

  lemma {:induction false} ProcessAllSafe(cfg: Config, store: Store, names: seq<string>, listed: map<string, Listed>,
                                          snap: Snapshot, env: Env)
    requires Safe(cfg, store)
    ensures var w := ProcessAll(cfg, store, names, listed, snap, env).progress;
            SafeTrail(cfg, store, w.trail, w.store) && Safe(cfg, w.store)
    decreases |names|
  {
    if names != [] {
      var n := names[0];
      var before := Find(cfg, store, n);
      var p := Carry(cfg, store, n, before, Decide(n, before, EntryOf(listed, n), snap, env), env);
      CarrySafe(cfg, store, n, EntryOf(listed, n), snap, env);
      if !p.aborted {
        ProcessAllSafe(cfg, p.store, names[1..], listed, snap, env);
        var rest := ProcessAll(cfg, p.store, names[1..], listed, snap, env).progress;
        TrailsJoin(cfg, store, p.trail, p.store, rest.trail, rest.store);
      }
    }
  }

  lemma PhasesSafe(cfg: Config, store: Store, candidates: seq<string>, names: seq<string>, listed: map<string, Listed>,
                   snap: Snapshot, targetSize: int, env: Env)
    requires AddressesReady(cfg) && Safe(cfg, store) && Ascending(candidates)
    requires forall n :: n in candidates ==> n in listed && Find(cfg, store, n).None?
    ensures var p := Phases(cfg, store, candidates, names, listed, snap, targetSize, env).progress;
            SafeTrail(cfg, store, p.trail, p.store) && Safe(cfg, p.store)
  {
    AllocateAllSafe(cfg, store, candidates, listed, snap, env);
    var p := AllocateAll(cfg, store, candidates, listed, snap, env);
    ProcessAllSafe(cfg, p.store, names, listed, snap, env);
    var w := ProcessAll(cfg, p.store, names, listed, snap, env).progress;
    TrailsJoin(cfg, store, p.trail, p.store, w.trail, w.store);
  }

  lemma NamesCover(cfg: Config, store: Store, listed: map<string, Listed>, candidates: seq<string>, names: seq<string>,
                   n: string)
    requires candidates == SortedNames(Candidates(cfg, store, listed))
             && names == SortedNames(AllNames(cfg, store, listed))
    ensures Ascending(candidates) && Ascending(names)
    ensures forall m :: m in candidates ==>
            m in names && m in listed && listed[m].verdict.Present? && Find(cfg, store, m).None?
    ensures Find(cfg, store, n).Some? ==> n in names
  {
    var v := View(cfg, store);
    assert Find(cfg, store, n).Some? ==> n in v;
  }

  lemma UsableIsSafe(cfg: Config, store: Store, listed: map<string, Listed>, snap: Snapshot, desired: int,
                     lastAccepted: int, env: Env)
    requires AddressesReady(cfg) && Safe(cfg, store)
    ensures var p := ReconcileUsable(cfg, store, listed, snap, desired, lastAccepted, env).progress;
            SafeTrail(cfg, store, p.trail, p.store) && Safe(cfg, p.store)
  {
    var candidates, names := SortedNames(Candidates(cfg, store, listed)), SortedNames(AllNames(cfg, store, listed));
    if !CannotRead(cfg, AllNames(cfg, store, listed), env) {
      NamesCover(cfg, store, listed, candidates, names, "");
      PhasesSafe(cfg, store, candidates, names, listed, snap, ComputeTargetSize(desired, cfg.capacity, lastAccepted),
          env);
    }
  }

  /**
   * After every write of every pass, whether the pass then completes or is cut short: owned records hold distinct
   * slots below capacity with their slots' addresses, and no surviving record has changed slot, key or address.
   */
  lemma PassIsSafe(cfg: Config, store: Store, snap: Option<Snapshot>, desired: int, lastAccepted: int, env: Env)
    requires AddressesReady(cfg) && Safe(cfg, store)
    ensures var p := Reconcile(cfg, store, snap, desired, lastAccepted, env).progress;
            SafeTrail(cfg, store, p.trail, p.store) && Safe(cfg, p.store)
  {
    if snap.Some? { UsableIsSafe(cfg, store, ByName(snap.value.members), snap.value, desired, lastAccepted, env); }
  }
}
