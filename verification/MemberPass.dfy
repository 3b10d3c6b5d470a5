/**
 * A pass as it runs: the record store changed write by write, refining Members.Reconcile.
 * internal/gcpmembers/reconcile.go.
 */
module MemberPass {
  import opened Text
  import opened Records
  import opened Discovery
  import opened Members
  import opened MemberSafety

  datatype Created = Created | AlreadyExists | CreateFailed

  /** The namespace's member records, one API call per method. */
  class RecordStore {
    var store: Store

    constructor (initial: Store)
      ensures store == initial
    {
      store := initial;
    }

    method Create(cfg: Config, r: Record, env: Env) returns (c: Created)
      requires Key(cfg, r.name).Some?
      modifies this
      ensures var key := Key(cfg, r.name).value;
              if key in old(store) || env.collides(r.name) then c.AlreadyExists? && store == old(store)
              else && store == (if env.create(r.name).Refused? then old(store) else old(store)[key := r])
                   && c == (if env.create(r.name).Done? then Created.Created else CreateFailed)
    {
      var key := Key(cfg, r.name).value;
      if key in store || env.collides(r.name) {
        return AlreadyExists;
      }
      if !env.create(r.name).Refused? {
        store := store[key := r];
      }
      return if env.create(r.name).Done? then Created.Created else CreateFailed;
    }

    /** Carries one decision out: a relabel, a delete, or nothing when the record is already as decided. */
    method Write(cfg: Config, name: string, before: Option<Record>, d: Decision, env: Env) returns (failed: bool)
      modifies this
      ensures var p := Carry(cfg, old(store), name, before, d, env); store == p.store && failed == p.aborted
    {
      var key := Key(cfg, name);
      if before == d.after || key.None? {
        return false;
      }
      if d.after.None? {
        store := store - {key.value};
        return false;
      }
      if !env.relabel(name).Refused? {
        store := store[key.value := d.after.value];
      }
      return !env.relabel(name).Done?;
    }
  }

  // ---------------------------------------------------------------- adopting

  ghost predicate AdoptedFrom(cfg: Config, store: Store, seen: set<string>, adopted: map<string, Record>) {
    && (forall n :: n in adopted <==> n in seen && Find(cfg, store, n).Some?)
    && (forall n :: n in adopted ==> adopted[n] == Find(cfg, store, n).value)
  }

  lemma OccupiedAfter(adopted: map<string, Record>, name: string, r: Record)
    requires name !in adopted
    ensures Occupied(adopted[name := r]) == Occupied(adopted) + {r.slot}
  {
    var next := adopted[name := r];
    forall s ensures s in Occupied(next) <==> s in Occupied(adopted) + {r.slot} {
      if s in Occupied(adopted) {
        var n :| n in adopted && adopted[n].slot == s;
        assert n in next && next[n].slot == s;
      }
      if s == r.slot { assert name in next && next[name].slot == s; }
    }
  }

  function Adding(adopted: map<string, Record>, name: string, rec: Option<Record>): map<string, Record> {
    if rec.Some? then adopted[name := rec.value] else adopted
  }

  lemma AdoptStep(cfg: Config, store: Store, seen: set<string>, adopted: map<string, Record>, name: string)
    requires AdoptedFrom(cfg, store, seen, adopted) && name !in seen
    ensures var rec := Find(cfg, store, name);
            && AdoptedFrom(cfg, store, seen + {name}, Adding(adopted, name, rec))
            && Occupied(Adding(adopted, name, rec)) == if rec.Some? then Occupied(adopted) + {rec.value.slot}
                 else Occupied(adopted)
  {
    var rec := Find(cfg, store, name);
    if rec.Some? { OccupiedAfter(adopted, name, rec.value); }
  }

  /** Reads every name, in whatever order the map yields them, and keeps the records this Gateway owns. */
  method Adopt(db: RecordStore, cfg: Config, all: set<string>) returns (adopted: map<string, Record>,
               occupied: set<int>, failed: bool)
    ensures failed <==> exists n :: n in all && Key(cfg, n).None?
    ensures !failed ==> AdoptedFrom(cfg, db.store, all, adopted) && occupied == Occupied(adopted)
  {
    adopted, occupied := map[], {};
    var seen: set<string> := {};
    while seen != all
      invariant seen <= all && AdoptedFrom(cfg, db.store, seen, adopted) && occupied == Occupied(adopted)
      invariant forall n :: n in seen ==> Key(cfg, n).Some?
      decreases all - seen
    {
      assert all - seen != {};
      var name :| name in all - seen;
      if Key(cfg, name).None? {
        return adopted, occupied, true;
      }
      AdoptStep(cfg, db.store, seen, adopted, name);
      var rec := Find(cfg, db.store, name);
      adopted := Adding(adopted, name, rec);
      if rec.Some? {
        occupied := occupied + {rec.value.slot};
      }
      seen := seen + {name};
    }
    failed := false;
  }

  // ---------------------------------------------------------------- allocating

  method LowestFreeSlotOf(occupied: set<int>, capacity: nat) returns (r: Option<nat>)
    ensures r == LowestFreeSlot(occupied, capacity)
  {
    for s := 0 to capacity
      invariant forall j :: 0 <= j < s ==> j in occupied
    {
      if s !in occupied {
        return Some(s);
      }
    }
    return None;
  }

  method Allocate(db: RecordStore, cfg: Config, name: string, listed: Listed, snap: Snapshot, occupied: set<int>,
                  env: Env)
    returns (rec: Option<Record>, failed: bool)
    requires occupied == Occupied(View(cfg, db.store)) && Find(cfg, db.store, name).None?
    modifies db
    ensures var p := TryAllocate(cfg, old(db.store), name, listed, snap, env);
            db.store == p.store && failed == p.aborted
    ensures rec.Some? ==>
            rec.value.name == name && Owns(cfg, rec.value, name) && Key(cfg, name).Some?
            && Key(cfg, name).value !in old(db.store)
            && db.store == old(db.store)[Key(cfg, name).value := rec.value]
    ensures rec.None? && !failed ==> db.store == old(db.store)
  {
    var slot := LowestFreeSlotOf(occupied, cfg.capacity);
    if slot.None? {
      return None, false;
    }
    var address := SlotAddress(cfg, slot.value);
    if address.None? {
      return None, true;
    }
    var keys := env.keypair(name);
    if keys.None? || Key(cfg, name).None? {
      return None, true;
    }
    var r := FreshRecord(cfg, name, slot.value, address.value, keys.value, listed, snap);
    var c := db.Create(cfg, r, env);
    match c
    case AlreadyExists => return None, false;
    case CreateFailed => return None, true;
    case Created => return Some(r), false;
  }

  lemma ViewAfterCreate(cfg: Config, store: Store, r: Record)
    requires Key(cfg, r.name).Some? && Owns(cfg, r, r.name) && Key(cfg, r.name).value !in store
    ensures Find(cfg, store, r.name).None?
    ensures View(cfg, store[Key(cfg, r.name).value := r]) == View(cfg, store)[r.name := r]
  {
    var next := store[Key(cfg, r.name).value := r];
    forall m ensures Find(cfg, next, m) == if m == r.name then Some(r) else Find(cfg, store, m) {
      FindAfterWrite(cfg, store, r, m);
    }
  }

  /** What is left of a list of candidates leads to the same end as the whole list did. */
  ghost predicate SameEnd(p: Progress, q: Progress) { p.store == q.store && p.aborted == q.aborted }

  method AllocateInOrder(db: RecordStore, cfg: Config, candidates: seq<string>, listed: map<string, Listed>,
                         snap: Snapshot,
                         adoptedBefore: map<string, Record>, occupiedBefore: set<int>, env: Env)
    returns (adopted: map<string, Record>, failed: bool)
    requires Ascending(candidates)
    requires forall n :: n in candidates ==> n in listed && Find(cfg, db.store, n).None?
    requires adoptedBefore == View(cfg, db.store) && occupiedBefore == Occupied(adoptedBefore)
    modifies db
    ensures var p := AllocateAll(cfg, old(db.store), candidates, listed, snap, env);
            db.store == p.store && failed == p.aborted && (!failed ==> adopted == View(cfg, db.store))
  {
    adopted := adoptedBefore;
    var occupied := occupiedBefore;
    assert candidates[0..] == candidates;
    for i := 0 to |candidates|
      invariant SameEnd(AllocateAll(cfg, old(db.store), candidates, listed, snap, env),
                        AllocateAll(cfg, db.store, candidates[i..], listed, snap, env))
      invariant adopted == View(cfg, db.store) && occupied == Occupied(adopted)
      invariant forall k :: i <= k < |candidates| ==> Find(cfg, db.store, candidates[k]).None?
    {
      var name := candidates[i];
      ghost var before := db.store;
      var rec, stop := Allocate(db, cfg, name, listed[name], snap, occupied, env);
      assert candidates[i..][1..] == candidates[i + 1..];
      if stop {
        return adopted, true;
      }
      if rec.Some? {
        ViewAfterCreate(cfg, before, rec.value);
        OccupiedAfter(adopted, name, rec.value);
        forall k | i + 1 <= k < |candidates| ensures Find(cfg, db.store, candidates[k]).None? {
          LessTotal(name, candidates[k]);
          FindAfterWrite(cfg, before, rec.value, candidates[k]);
        }
        adopted := adopted[name := rec.value];
        occupied := occupied + {rec.value.slot};
      }
    }
    assert candidates[|candidates|..] == [];
    failed := false;
  }

  // ---------------------------------------------------------------- settling

  /** A decision is about the record it was given: it leaves no other name behind. */
  lemma DecisionOwns(cfg: Config, name: string, rec: Option<Record>, listed: Option<Listed>, snap: Snapshot, env: Env)
    requires rec.Some? ==> Owns(cfg, rec.value, name)
    ensures var d := Decide(name, rec, listed, snap, env);
            d.after.Some? ==> rec.Some? && Owns(cfg, d.after.value, name)
  {}

  ghost predicate Extends(whole: Walk, members: seq<Status>, live: seq<Record>, rest: Walk) {
    && whole.progress.store == rest.progress.store && whole.progress.aborted == rest.progress.aborted
    && (!whole.progress.aborted ==> whole.members == members + rest.members && whole.live == live + rest.live)
  }

  /** The remaining names have not been touched: what was adopted for them still stands. */
  ghost predicate Standing(cfg: Config, store: Store, names: seq<string>, adopted: map<string, Record>) {
    forall k :: 0 <= k < |names| ==>
        Find(cfg, store, names[k]) == (if names[k] in adopted then Some(adopted[names[k]]) else None)
  }

  method SettleFirst(db: RecordStore, cfg: Config, names: seq<string>, adopted: map<string, Record>, listed: map<string,
                     Listed>,
                     snap: Snapshot, env: Env)
    returns (d: Decision, failed: bool)
    requires names != [] && Ascending(names) && Standing(cfg, db.store, names, adopted)
    modifies db
    ensures d == Decide(names[0], Find(cfg, old(db.store), names[0]), EntryOf(listed, names[0]), snap, env)
    ensures var p := Carry(cfg, old(db.store), names[0], Find(cfg, old(db.store), names[0]), d, env);
            db.store == p.store && failed == p.aborted
    ensures !failed ==> Standing(cfg, db.store, names[1..], adopted)
  {
    var name := names[0];
    var rec := if name in adopted then Some(adopted[name]) else None;
    ghost var before := db.store;
    d := Decide(name, rec, EntryOf(listed, name), snap, env);
    failed := db.Write(cfg, name, rec, d, env);
    DecisionOwns(cfg, name, rec, EntryOf(listed, name), snap, env);
    CarryEffect(cfg, before, name, d, env);
    forall k | 1 <= k < |names| ensures Find(cfg, db.store, names[k]) == Find(cfg, before, names[k]) {
      LessTotal(name, names[k]);
    }
  }

  /** What the first name adds to a walk. */
  lemma ProcessStep(cfg: Config, store: Store, names: seq<string>, listed: map<string, Listed>, snap: Snapshot,
                    env: Env)
    requires names != []
    ensures var before := Find(cfg, store, names[0]);
            var d := Decide(names[0], before, EntryOf(listed, names[0]), snap, env);
            var p := Carry(cfg, store, names[0], before, d, env);
            !p.aborted ==> Extends(ProcessAll(cfg, store, names, listed, snap, env),
                                   if d.status.Some? then [d.status.value] else [],
                                   if d.live && d.after.Some? then [d.after.value] else [],
                                   ProcessAll(cfg, p.store, names[1..], listed, snap, env))
  {}

  lemma ExtendsJoin(whole: Walk, members: seq<Status>, live: seq<Record>, mid: Walk, s: seq<Status>, r: seq<Record>,
                    rest: Walk)
    requires Extends(whole, members, live, mid) && Extends(mid, s, r, rest)
    ensures Extends(whole, members + s, live + r, rest)
  {
    assert members + (s + rest.members) == (members + s) + rest.members;
    assert live + (r + rest.live) == (live + r) + rest.live;
  }

  method SettleInOrder(db: RecordStore, cfg: Config, names: seq<string>, adopted: map<string, Record>,
                       listed: map<string, Listed>,
                       snap: Snapshot, env: Env)
    returns (members: seq<Status>, live: seq<Record>, failed: bool)
    requires Ascending(names) && adopted == View(cfg, db.store)
    modifies db
    ensures var w := ProcessAll(cfg, old(db.store), names, listed, snap, env);
            db.store == w.progress.store && failed == w.progress.aborted
                && (!failed ==> members == w.members && live == w.live)
  {
    members, live := [], [];
    var rest := names;
    ghost var whole := ProcessAll(cfg, db.store, names, listed, snap, env);
    while rest != []
      invariant Ascending(rest) && Standing(cfg, db.store, rest, adopted)
      invariant Extends(whole, members, live, ProcessAll(cfg, db.store, rest, listed, snap, env))
      decreases |rest|
    {
      ghost var before := db.store;
      var d;
      d, failed := SettleFirst(db, cfg, rest, adopted, listed, snap, env);
      if failed {
        return;
      }
      var status := if d.status.Some? then [d.status.value] else [];
      var record := if d.live && d.after.Some? then [d.after.value] else [];
      ProcessStep(cfg, before, rest, listed, snap, env);
      ExtendsJoin(whole, members, live, ProcessAll(cfg, before, rest, listed, snap, env), status, record,
                  ProcessAll(cfg, db.store, rest[1..], listed, snap, env));
      members, live := members + status, live + record;
      rest := rest[1..];
    }
    failed := false;
  }

  // ---------------------------------------------------------------- the pass

  lemma AdoptedIsView(cfg: Config, store: Store, listed: map<string, Listed>, all: set<string>, adopted: map<string,
                      Record>)
    requires AreNames(cfg, store, listed, all) && AdoptedFrom(cfg, store, all, adopted)
    ensures adopted == View(cfg, store)
  {
    var v := View(cfg, store);
    assert v.Keys <= all;
  }

  method CandidateNames(listed: map<string, Listed>, adopted: map<string, Record>) returns (candidates: set<string>)
    ensures forall n :: n in candidates <==> n in listed && listed[n].verdict.Present? && n !in adopted
  {
    candidates := {};
    var rest := listed.Keys;
    while rest != {}
      invariant rest <= listed.Keys
      invariant forall n :: n in candidates <==>
                n in listed && n !in rest && listed[n].verdict.Present? && n !in adopted
      decreases |rest|
    {
      var name :| name in rest;
      if listed[name].verdict.Present? && name !in adopted {
        candidates := candidates + {name};
      }
      rest := rest - {name};
    }
  }

  method RunPhases(db: RecordStore, cfg: Config, candidates: seq<string>, names: seq<string>, listed: map<string,
                   Listed>, snap: Snapshot,
                   adoptedBefore: map<string, Record>, occupied: set<int>, targetSize: int, env: Env)
    returns (outcome: Outcome)
    requires Ascending(candidates) && Ascending(names)
    requires forall n :: n in candidates ==> n in listed && Find(cfg, db.store, n).None?
    requires adoptedBefore == View(cfg, db.store) && occupied == Occupied(adoptedBefore)
    modifies db
    ensures var pass := Phases(cfg, old(db.store), candidates, names, listed, snap, targetSize, env);
            db.store == pass.progress.store && outcome == pass.outcome
  {
    var adopted, failed := AllocateInOrder(db, cfg, candidates, listed, snap, adoptedBefore, occupied, env);
    if failed {
      return Aborted;
    }
    var members, live;
    members, live, failed := SettleInOrder(db, cfg, names, adopted, listed, snap, env);
    if failed {
      return Aborted;
    }
    return Usable(Result(members, targetSize, Peers(live), Roster(cfg, live)));
  }

  method ReconcileSnapshot(db: RecordStore, cfg: Config, listed: map<string, Listed>, snap: Snapshot, desired: int,
                           lastAccepted: int, env: Env)
    returns (outcome: Outcome)
    modifies db
    ensures var pass := ReconcileUsable(cfg, old(db.store), listed, snap, desired, lastAccepted, env);
            db.store == pass.progress.store && outcome == pass.outcome
  {
    var targetSize := ComputeTargetSize(desired, cfg.capacity, lastAccepted);
    var all := listed.Keys + Tracked(cfg, db.store);
    AllNamesAre(cfg, db.store, listed, all);
    if env.readFails {
      return Aborted;
    }
    var adopted, occupied, failed := Adopt(db, cfg, all);
    if failed {
      return Aborted;
    }
    AdoptedIsView(cfg, db.store, listed, all, adopted);
    var unrecorded := CandidateNames(listed, adopted);
    CandidatesAre(cfg, db.store, listed, adopted, unrecorded);
    var candidates := Sort(unrecorded);
    var names := Sort(all);
    outcome := RunPhases(db, cfg, candidates, names, listed, snap, adopted, occupied, targetSize, env);
  }

  lemma CandidatesAre(cfg: Config, store: Store, listed: map<string, Listed>, adopted: map<string, Record>,
                      candidates: set<string>)
    requires adopted == View(cfg, store)
    requires forall n :: n in candidates <==> n in listed && listed[n].verdict.Present? && n !in adopted
    ensures candidates == Candidates(cfg, store, listed)
    ensures forall n :: n in candidates ==> n in listed && Find(cfg, store, n).None?
  {
    assert AreCandidates(cfg, store, listed, candidates);
  }

  lemma AllNamesAre(cfg: Config, store: Store, listed: map<string, Listed>, all: set<string>)
    requires AreNames(cfg, store, listed, all)
    ensures all == AllNames(cfg, store, listed)
  {}

  /**
   * Reconcile on the store: whatever the order maps are walked in, the store and the result are those of the
   * specification.
   */
  method Reconcile(db: RecordStore, cfg: Config, snap: Option<Snapshot>, desired: int, lastAccepted: int,
                   env: Env) returns (outcome: Outcome)
    modifies db
    ensures var pass := Members.Reconcile(cfg, old(db.store), snap, desired, lastAccepted, env);
            db.store == pass.progress.store && outcome == pass.outcome
  {
    if snap.None? {
      return Unusable(lastAccepted);
    }
    var listed := map[];
    for i := 0 to |snap.value.members|
      invariant listed == ByName(snap.value.members[..i])
    {
      var m := snap.value.members[i];
      assert snap.value.members[..i + 1][..i] == snap.value.members[..i];
      listed := listed[m.name := m];
    }
    assert snap.value.members[..|snap.value.members|] == snap.value.members;
    outcome := ReconcileSnapshot(db, cfg, listed, snap.value, desired, lastAccepted, env);
  }
}
