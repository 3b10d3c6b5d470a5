/** Slots and counters over whole runs of passes: quarantine before reuse, exact debounce, confirmed deletion. */
module MemberRuns {
  import opened Text
  import opened Records
  import opened Discovery
  import opened Members
  import opened MemberSafety

  // ---------------------------------------------------------------- what one pass does to one name

  ghost function Verdict(cfg: Config, store: Store, listed: map<string, Listed>, snap: Snapshot, env: Env,
                         n: string): Decision {
    Decide(n, Find(cfg, store, n), EntryOf(listed, n), snap, env)
  }

  /** Freshly allocated: present in the listing, on no counter and not retiring. */
  ghost predicate Fresh(listed: map<string, Listed>, n: string, r: Record) {
    n in listed && listed[n].verdict.Present? && r.departureCount == 0 && !r.pendingConfirmation
  }

  lemma {:induction false} AllocateAllEffect(cfg: Config, store: Store, names: seq<string>, listed: map<string, Listed>,
                                             snap: Snapshot, env: Env)
    requires AddressesReady(cfg) && Ascending(names)
    requires forall n :: n in names ==> n in listed && listed[n].verdict.Present? && Find(cfg, store, n).None?
    ensures var p := AllocateAll(cfg, store, names, listed, snap, env);
            forall n :: Find(cfg, p.store, n) == Find(cfg, store, n) ||
                        (n in names && Find(cfg, p.store, n).Some? && Fresh(listed, n, Find(cfg, p.store, n).value))
    decreases |names|
  {
    if names != [] {
      var h := names[0];
      var p := TryAllocate(cfg, store, h, listed[h], snap, env);
      TryAllocateEffect(cfg, store, h, listed[h], snap, env);
      if !p.aborted {
        forall m | m in names[1..] ensures m in names && Find(cfg, p.store, m).None? {
          LessTotal(h, m);
        }
        AllocateAllEffect(cfg, p.store, names[1..], listed, snap, env);
        var q := AllocateAll(cfg, p.store, names[1..], listed, snap, env);
        LessTotal(h, h);
        assert h !in names[1..];
        forall n ensures Find(cfg, q.store, n) == Find(cfg, store, n) ||
                         (n in names && Find(cfg, q.store, n).Some? && Fresh(listed, n, Find(cfg, q.store, n).value)) {
          assert Find(cfg, q.store, n) == Find(cfg, p.store, n) || n in names[1..];
        }
      }
    }
  }

  /** The statuses and live records a completed walk publishes, read off the store it started from. */
  ghost function Published(cfg: Config, store: Store, names: seq<string>, listed: map<string, Listed>, snap: Snapshot,
                           env: Env): (seq<Status>, seq<Record>) {
    if names == [] then ([], [])
    else
      var d := Verdict(cfg, store, listed, snap, env, names[0]);
      var rest := Published(cfg, store, names[1..], listed, snap, env);
      ((if d.status.Some? then [d.status.value] else []) + rest.0,
       (if d.live && d.after.Some? then [d.after.value] else []) + rest.1)
  }

  lemma {:induction false} PublishedFrame(cfg: Config, store: Store, store': Store, names: seq<string>,
                                          listed: map<string, Listed>, snap: Snapshot, env: Env)
    requires forall n :: n in names ==> Find(cfg, store, n) == Find(cfg, store', n)
    ensures Published(cfg, store, names, listed, snap, env) == Published(cfg, store', names, listed, snap, env)
    decreases |names|
  {
    if names != [] { PublishedFrame(cfg, store, store', names[1..], listed, snap, env); }
  }

  /** Every name is decided on its own record; an aborted walk leaves some names as they were. */
  lemma {:induction false} ProcessAllEffect(cfg: Config, store: Store, names: seq<string>, listed: map<string, Listed>,
                                            snap: Snapshot, env: Env)
    requires Safe(cfg, store) && Ascending(names)
    ensures var w := ProcessAll(cfg, store, names, listed, snap, env);
            && (forall n :: Find(cfg, w.progress.store, n) == Find(cfg, store, n) ||
                            (n in names && Find(cfg, w.progress.store, n) ==
                                Verdict(cfg, store, listed, snap, env, n).after))
            && (!w.progress.aborted ==>
                  && (forall n :: n in names ==>
                        Find(cfg, w.progress.store, n) == Verdict(cfg, store, listed, snap, env, n).after)
                  && (w.members, w.live) == Published(cfg, store, names, listed, snap, env))
    decreases |names|
  {
    if names != [] {
      var h := names[0];
      var before := Find(cfg, store, h);
      var d := Verdict(cfg, store, listed, snap, env, h);
      var p := Carry(cfg, store, h, before, d, env);
      DecideKeeps(cfg, h, before, EntryOf(listed, h), snap, env);
      CarryEffect(cfg, store, h, d, env);
      if !p.aborted {
        CarrySafe(cfg, store, h, EntryOf(listed, h), snap, env);
        ProcessAllEffect(cfg, p.store, names[1..], listed, snap, env);
        forall m | m in names[1..] ensures m in names && m != h && Find(cfg, p.store, m) == Find(cfg, store, m) {
          LessTotal(h, m);
        }
        PublishedFrame(cfg, p.store, store, names[1..], listed, snap, env);
        assert h !in names[1..];
      }
    }
  }

  /** Which names a walk publishes a peer for. */
  lemma {:induction false} PublishedLive(cfg: Config, store: Store, names: seq<string>, listed: map<string, Listed>,
                                         snap: Snapshot, env: Env, r: Record)
    requires Safe(cfg, store)
    ensures r in Published(cfg, store, names, listed, snap, env).1 <==>
            r.name in names && var d := Verdict(cfg, store, listed, snap, env, r.name); d.live && d.after == Some(r)
    decreases |names|
  {
    if names != [] {
      var h := names[0];
      DecideKeeps(cfg, h, Find(cfg, store, h), EntryOf(listed, h), snap, env);
      PublishedLive(cfg, store, names[1..], listed, snap, env, r);
      assert names == [h] + names[1..];
    }
  }

  lemma AllocationOf(cfg: Config, store: Store, names: seq<string>, listed: map<string, Listed>, snap: Snapshot,
                     env: Env, n: string)
    requires AddressesReady(cfg) && Safe(cfg, store) && Ascending(names)
    requires forall m :: m in names ==> m in listed && listed[m].verdict.Present? && Find(cfg, store, m).None?
    ensures var p := AllocateAll(cfg, store, names, listed, snap, env);
            && Safe(cfg, p.store)
            && (Find(cfg, p.store, n) == Find(cfg, store, n) ||
                (n in names && Find(cfg, store, n).None? && Find(cfg, p.store, n).Some?
                    && Fresh(listed, n, Find(cfg, p.store, n).value)))
  {
    AllocateAllEffect(cfg, store, names, listed, snap, env);
    AllocateAllSafe(cfg, store, names, listed, snap, env);
  }

  lemma SettlementOf(cfg: Config, store: Store, names: seq<string>, listed: map<string, Listed>, snap: Snapshot,
                     env: Env, n: string)
    requires Safe(cfg, store) && Ascending(names)
    ensures var w := ProcessAll(cfg, store, names, listed, snap, env);
            var d := Verdict(cfg, store, listed, snap, env, n);
            && (Find(cfg, w.progress.store, n) == Find(cfg, store, n)
                  || (n in names && Find(cfg, w.progress.store, n) == d.after))
            && (!w.progress.aborted && n in names ==> Find(cfg, w.progress.store, n) == d.after)
            && (!w.progress.aborted ==> forall r: Record :: r.name == n ==>
                  (r in w.live <==> n in names && d.live && d.after == Some(r)))
  {
    ProcessAllEffect(cfg, store, names, listed, snap, env);
    forall r: Record {
      PublishedLive(cfg, store, names, listed, snap, env, r);
    }
  }

  /** The live records of a completed pass, by name. */
  ghost predicate LiveAre(cfg: Config, result: Result, live: seq<Record>) {
    result.peers == Peers(live) && result.roster == Roster(cfg, live)
  }

  /** A pass on one name: a known record follows its decision or, in an aborted pass, stays; a new one is fresh. */
  ghost predicate PassEffect(cfg: Config, store: Store, listed: map<string, Listed>, snap: Snapshot, env: Env,
                             pass: Pass, live: seq<Record>, n: string) {
    var before, after, d := Find(cfg, store, n), Find(cfg, pass.progress.store, n),
        Verdict(cfg, store, listed, snap, env, n);
    && !pass.outcome.Unusable?
    && (before.Some? ==> after == d.after || (pass.outcome.Aborted? && after == before))
    && (before.None? && after.Some? ==> Fresh(listed, n, after.value))
    && (pass.outcome.Usable? ==>
          && LiveAre(cfg, pass.outcome.result, live)
          && forall r: Record :: r.name == n ==> (r in live <==> after == Some(r) && (before.Some? ==> d.live)))
  }

  lemma PhasesEffect(cfg: Config, store: Store, candidates: seq<string>, names: seq<string>, listed: map<string,
                     Listed>, snap: Snapshot, size: int, env: Env, n: string)
    returns (live: seq<Record>)
    requires AddressesReady(cfg) && Safe(cfg, store) && Ascending(candidates) && Ascending(names)
    requires forall m :: m in candidates ==>
             m in names && m in listed && listed[m].verdict.Present? && Find(cfg, store, m).None?
    requires Find(cfg, store, n).Some? ==> n in names
    ensures PassEffect(cfg, store, listed, snap, env, Phases(cfg, store, candidates, names, listed, snap, size, env),
            live, n)
  {
    AllocationOf(cfg, store, candidates, listed, snap, env, n);
    var p := AllocateAll(cfg, store, candidates, listed, snap, env);
    var w := ProcessAll(cfg, p.store, names, listed, snap, env);
    live := w.live;
    if !p.aborted {
      SettlementOf(cfg, p.store, names, listed, snap, env, n);
      FreshResumes(cfg, p.store, listed, snap, env, n);
    }
  }

  /** A fresh record is settled as present in the same pass. */
  lemma FreshResumes(cfg: Config, store: Store, listed: map<string, Listed>, snap: Snapshot, env: Env, n: string)
    ensures var r, d := Find(cfg, store, n), Verdict(cfg, store, listed, snap, env, n);
            && (r.Some? && Fresh(listed, n, r.value) ==> d.live && d.after.Some? && Fresh(listed, n, d.after.value))
            && (r.None? ==> !d.live && d.after.None?)
  {}

  // ---------------------------------------------------------------- runs

  /** A pass of this Gateway, or other writers changing records that are not this Gateway's. */
  datatype Input = Observe(snap: Option<Snapshot>, desired: int, lastAccepted: int, env: Env) | Foreign

  datatype Turn = Turn(before: Store, input: Input, after: Store, outcome: Outcome)

  /** Names the listing is told have a record: whatever each tracked name's Secret holds. */
  ghost function RecordedNames(cfg: Config, store: Store): set<string> {
    set n | n in Tracked(cfg, store) && Key(cfg, n).Some? && Key(cfg, n).value in store :: store[Key(cfg, n).value].name
  }

  /** The snapshot came from the classification table, asked about this very store. */
  ghost predicate VerdictsFrom(cfg: Config, store: Store, snap: Snapshot) {
    forall l :: l in snap.members ==>
      l.verdict == Classify(l.action, l.instanceID != "", l.name in RecordedNames(cfg, store))
  }

  ghost predicate TurnOk(cfg: Config, t: Turn) {
    match t.input
    case Foreign => t.outcome.Aborted? && forall n :: Find(cfg, t.before, n) == Find(cfg, t.after, n)
    case Observe(snap, desired, lastAccepted, env) =>
      var pass := Reconcile(cfg, t.before, snap, desired, lastAccepted, env);
      && t.after == pass.progress.store && t.outcome == pass.outcome
      && (snap.Some? ==> VerdictsFrom(cfg, t.before, snap.value))
  }

  /** A Gateway's life so far: it starts without records, and each turn begins where the last one ended. */
  ghost predicate IsRun(cfg: Config, turns: seq<Turn>) {
    && AddressesReady(cfg)
    && (forall i :: 0 <= i < |turns| ==> TurnOk(cfg, turns[i]))
    && (forall i :: 0 < i < |turns| ==> turns[i].before == turns[i - 1].after)
    && (turns != [] ==> forall n :: Find(cfg, turns[0].before, n).None?)
  }

  lemma {:induction false} RunIsSafe(cfg: Config, turns: seq<Turn>, i: nat)
    requires IsRun(cfg, turns) && i < |turns|
    ensures Safe(cfg, turns[i].before) && Safe(cfg, turns[i].after)
  {
    if i > 0 { RunIsSafe(cfg, turns, i - 1); }
    var t := turns[i];
    assert TurnOk(cfg, t);
    if t.input.Observe? {
      PassIsSafe(cfg, t.before, t.input.snap, t.input.desired, t.input.lastAccepted, t.input.env);
    }
  }

  ghost predicate UsableTurn(t: Turn) { t.input.Observe? && t.input.snap.Some? }

  ghost function ListedIn(t: Turn): map<string, Listed>
    requires UsableTurn(t)
  {
    ByName(t.input.snap.value.members)
  }

  ghost function Decided(cfg: Config, t: Turn, n: string): Decision
    requires UsableTurn(t)
  {
    Verdict(cfg, t.before, ListedIn(t), t.input.snap.value, t.input.env, n)
  }

  /** The published result gives `n` a peer on `slot`. */
  ghost predicate HasPeer(t: Turn, n: string, slot: int) {
    && t.outcome.Usable?
    && |t.outcome.result.peers| == |t.outcome.result.roster|
    && exists k :: 0 <= k < |t.outcome.result.roster| && t.outcome.result.roster[k].name == n
         && t.outcome.result.peers[k].slot == slot
  }

  lemma LiveHasPeer(cfg: Config, t: Turn, live: seq<Record>, n: string, slot: int)
    requires t.outcome.Usable? && t.outcome.result.peers == Peers(live) && t.outcome.result.roster == Roster(cfg, live)
    ensures HasPeer(t, n, slot) <==> exists r :: r in live && r.name == n && r.slot == slot
  {
    if HasPeer(t, n, slot) {
      var k :| 0 <= k < |live| && t.outcome.result.roster[k].name == n && t.outcome.result.peers[k].slot == slot;
      assert live[k] in live;
    }
    if r :| r in live && r.name == n && r.slot == slot {
      var k :| 0 <= k < |live| && live[k] == r;
      assert t.outcome.result.roster[k] == BuildRosterEntry(cfg, r) && t.outcome.result.peers[k] == BuildPeer(r);
    }
  }

  /** A usable pass as a whole, on one name. */
  lemma UsableEffect(cfg: Config, store: Store, listed: map<string, Listed>, snap: Snapshot, desired: int,
                     lastAccepted: int, env: Env, n: string)
    returns (live: seq<Record>)
    requires AddressesReady(cfg) && Safe(cfg, store)
    ensures PassEffect(cfg, store, listed, snap, env,
            ReconcileUsable(cfg, store, listed, snap, desired, lastAccepted, env), live, n)
  {
    var candidates, names := SortedNames(Candidates(cfg, store, listed)), SortedNames(AllNames(cfg, store, listed));
    if CannotRead(cfg, AllNames(cfg, store, listed), env) {
      live := [];
    } else {
      NamesCover(cfg, store, listed, candidates, names, n);
      live := PhasesEffect(cfg, store, candidates, names, listed, snap,
          ComputeTargetSize(desired, cfg.capacity, lastAccepted), env, n);
    }
  }

  /** A record created in a pass avoids every slot held when the pass began, even one freed within it. */
  lemma PhasesNewSlot(cfg: Config, store: Store, candidates: seq<string>, names: seq<string>, listed: map<string,
                      Listed>, snap: Snapshot, size: int, env: Env, n: string, m: string)
    requires AddressesReady(cfg) && Safe(cfg, store) && Ascending(candidates) && Ascending(names)
    requires forall k :: k in candidates ==>
             k in names && k in listed && listed[k].verdict.Present? && Find(cfg, store, k).None?
    requires m != n && Find(cfg, store, n).Some? && Find(cfg, store, m).None?
    ensures var after := Find(cfg, Phases(cfg, store, candidates, names, listed, snap, size, env).progress.store, m);
            after.Some? ==> after.value.slot != Find(cfg, store, n).value.slot
  {
    AllocationOf(cfg, store, candidates, listed, snap, env, n);
    AllocationOf(cfg, store, candidates, listed, snap, env, m);
    var p := AllocateAll(cfg, store, candidates, listed, snap, env);
    if !p.aborted {
      SettlementOf(cfg, p.store, names, listed, snap, env, m);
      SlotKept(cfg, p.store, listed, snap, env, m);
    }
  }

  lemma SlotKept(cfg: Config, store: Store, listed: map<string, Listed>, snap: Snapshot, env: Env, m: string)
    ensures var d := Verdict(cfg, store, listed, snap, env, m);
            d.after.Some? ==> Find(cfg, store, m).Some? && d.after.value.slot == Find(cfg, store, m).value.slot
  {}

  lemma UsableNewSlot(cfg: Config, store: Store, listed: map<string, Listed>, snap: Snapshot, desired: int,
                      lastAccepted: int, env: Env, n: string, m: string)
    requires AddressesReady(cfg) && Safe(cfg, store)
    requires m != n && Find(cfg, store, n).Some? && Find(cfg, store, m).None?
    ensures var after := Find(cfg, ReconcileUsable(cfg, store, listed, snap, desired, lastAccepted, env).progress.store,
            m);
            after.Some? ==> after.value.slot != Find(cfg, store, n).value.slot
  {
    var candidates, names := SortedNames(Candidates(cfg, store, listed)), SortedNames(AllNames(cfg, store, listed));
    if !CannotRead(cfg, AllNames(cfg, store, listed), env) {
      NamesCover(cfg, store, listed, candidates, names, n);
      PhasesNewSlot(cfg, store, candidates, names, listed, snap, ComputeTargetSize(desired, cfg.capacity, lastAccepted),
          env, n, m);
    }
  }

  lemma FoundIsRecorded(cfg: Config, store: Store, n: string)
    requires Find(cfg, store, n).Some?
    ensures n in RecordedNames(cfg, store)
  {
    var v := View(cfg, store);
    assert n in v;
  }

  // ---------------------------------------------------------------- a turn, summed up

  /** What a turn does to one name: the only facts the run-level proofs use. */
  ghost predicate Effect(cfg: Config, t: Turn, n: string) {
    var before, after := Find(cfg, t.before, n), Find(cfg, t.after, n);
    if !UsableTurn(t) then after == before && !t.outcome.Usable?
    else
      var d := Decided(cfg, t, n);
      && (before.Some? ==> after == d.after || (t.outcome.Aborted? && after == before))
      && (before.None? && after.Some? ==> Fresh(ListedIn(t), n, after.value))
      && (t.outcome.Usable? ==> forall s :: HasPeer(t, n, s) <==>
            after.Some? && s == after.value.slot && (before.Some? ==> d.live))
      && (before.Some? && n in ListedIn(t) && !Leaving(ListedIn(t)[n].action) ==> ListedIn(t)[n].verdict.Present?)
      && (before.Some? && n in ListedIn(t) && Leaving(ListedIn(t)[n].action) ==> ListedIn(t)[n].verdict.Departed?)
  }

  ghost predicate NewSlotFree(cfg: Config, t: Turn, n: string, m: string) {
    m != n && Find(cfg, t.before, n).Some? && Find(cfg, t.before, m).None? && Find(cfg, t.after, m).Some? ==>
      Find(cfg, t.after, m).value.slot != Find(cfg, t.before, n).value.slot
  }

  lemma RecordedVerdict(cfg: Config, store: Store, snap: Snapshot, n: string)
    requires VerdictsFrom(cfg, store, snap) && Find(cfg, store, n).Some? && n in ByName(snap.members)
    ensures var l := ByName(snap.members)[n]; l.verdict == if Leaving(l.action) then Departed else Present
  {
    FoundIsRecorded(cfg, store, n);
    var l := ByName(snap.members)[n];
    ClassifyMeaning(l.action, l.instanceID != "", true);
  }

  lemma TurnHasEffect(cfg: Config, t: Turn, n: string)
    requires AddressesReady(cfg) && TurnOk(cfg, t) && Safe(cfg, t.before)
    ensures Effect(cfg, t, n)
  {
    if UsableTurn(t) {
      var live := UsableEffect(cfg, t.before, ListedIn(t), t.input.snap.value, t.input.desired, t.input.lastAccepted,
          t.input.env, n);
      if Find(cfg, t.before, n).Some? && n in ListedIn(t) {
        RecordedVerdict(cfg, t.before, t.input.snap.value, n);
      }
      if t.outcome.Usable? {
        forall s ensures HasPeer(t, n, s) <==> exists r :: r in live && r.name == n && r.slot == s {
          LiveHasPeer(cfg, t, live, n, s);
        }
      }
    }
  }

  lemma TurnHasFreeSlots(cfg: Config, t: Turn, n: string, m: string)
    requires AddressesReady(cfg) && TurnOk(cfg, t) && Safe(cfg, t.before)
    ensures NewSlotFree(cfg, t, n, m)
  {
    if UsableTurn(t) && m != n && Find(cfg, t.before, n).Some? && Find(cfg, t.before, m).None? {
      UsableNewSlot(cfg, t.before, ListedIn(t), t.input.snap.value, t.input.desired, t.input.lastAccepted, t.input.env,
          n, m);
    }
  }

  /** A run seen through its effects. */
  ghost predicate Chronicle(cfg: Config, turns: seq<Turn>) {
    && (forall i :: 0 <= i < |turns| ==> Safe(cfg, turns[i].before) && Safe(cfg, turns[i].after))
    && (forall i, n :: 0 <= i < |turns| ==> Effect(cfg, turns[i], n))
    && (forall i, n, m :: 0 <= i < |turns| ==> NewSlotFree(cfg, turns[i], n, m))
    && (forall i :: 0 < i < |turns| ==> turns[i].before == turns[i - 1].after)
    && (turns != [] ==> forall n :: Find(cfg, turns[0].before, n).None?)
  }

  lemma RunHasChronicle(cfg: Config, turns: seq<Turn>)
    requires IsRun(cfg, turns)
    ensures Chronicle(cfg, turns)
  {
    forall i | 0 <= i < |turns| ensures Safe(cfg, turns[i].before) && Safe(cfg, turns[i].after) {
      RunIsSafe(cfg, turns, i);
    }
    forall i, n | 0 <= i < |turns| ensures Effect(cfg, turns[i], n) {
      TurnHasEffect(cfg, turns[i], n);
    }
    forall i, n, m | 0 <= i < |turns| ensures NewSlotFree(cfg, turns[i], n, m) {
      TurnHasFreeSlots(cfg, turns[i], n, m);
    }
  }

  // ---------------------------------------------------------------- one name through one turn

  lemma ListedTurn(cfg: Config, t: Turn, n: string)
    requires Effect(cfg, t, n) && UsableTurn(t) && Find(cfg, t.before, n).Some? && n in ListedIn(t)
             && !Leaving(ListedIn(t)[n].action)
    ensures t.outcome.Usable? ==>
              var r, r' := Find(cfg, t.before, n).value, Find(cfg, t.after, n);
              && r'.Some? && SameAllocation(r, r'.value) && r'.value.departureCount == 0
                   && !r'.value.pendingConfirmation
              && HasPeer(t, n, r.slot)
  {}

  lemma DeletingTurn(cfg: Config, t: Turn, n: string)
    requires Effect(cfg, t, n) && Find(cfg, t.before, n).Some? && Find(cfg, t.after, n).None?
    ensures UsableTurn(t) && Find(cfg, t.before, n).value.pendingConfirmation && !IsPresent(EntryOf(ListedIn(t), n))
    ensures UsableTurn(t) && t.input.env.absent(n).Yes? && t.input.env.synced(n).Yes? && !t.input.env.remove(n).Refused?
    ensures forall s :: !HasPeer(t, n, s)
  {}

  lemma MarkingTurn(cfg: Config, t: Turn, n: string)
    requires Effect(cfg, t, n)
    requires Find(cfg, t.before, n).None? || !Find(cfg, t.before, n).value.pendingConfirmation
    requires Find(cfg, t.after, n).Some? && Find(cfg, t.after, n).value.pendingConfirmation
    ensures UsableTurn(t) && Find(cfg, t.before, n).Some? && forall s :: !HasPeer(t, n, s)
  {}

  lemma PeerHolds(cfg: Config, t: Turn, n: string, slot: int)
    requires Effect(cfg, t, n) && HasPeer(t, n, slot)
    ensures UsableTurn(t) && Holds(cfg, t, n, slot) && !Retiring(cfg, t, n)
  {}

  lemma HoldingTurn(cfg: Config, t: Turn, n: string, m: string, slot: int)
    requires Effect(cfg, t, m) && NewSlotFree(cfg, t, n, m) && Safe(cfg, t.before) && m != n
    requires Find(cfg, t.before, n).Some? && Find(cfg, t.before, n).value.slot == slot
    ensures !HasPeer(t, m, slot)
  {}

  // ---------------------------------------------------------------- one name through every run

  /**
   * In every run, a recorded name listed with any action but deleting or abandoning keeps or regains its peer on the
   * same slot, key and address, with the counter at zero, however far its retirement had got.
   */
  lemma ListedStays(cfg: Config, turns: seq<Turn>, i: nat, n: string)
    requires IsRun(cfg, turns) && i < |turns| && UsableTurn(turns[i]) && turns[i].outcome.Usable?
    requires Find(cfg, turns[i].before, n).Some? && n in ListedIn(turns[i]) && !Leaving(ListedIn(turns[i])[n].action)
    ensures var r, r' := Find(cfg, turns[i].before, n).value, Find(cfg, turns[i].after, n);
            && r'.Some? && SameAllocation(r, r'.value) && r'.value.departureCount == 0 && !r'.value.pendingConfirmation
            && HasPeer(turns[i], n, r.slot)
  {
    RunHasChronicle(cfg, turns);
    assert Effect(cfg, turns[i], n);
    ListedTurn(cfg, turns[i], n);
  }

  /**
   * The turn turns a record that was not retiring into a retiring one, on a usable snapshot and without a peer for it.
   */
  ghost predicate Marks(cfg: Config, t: Turn, n: string) {
    && UsableTurn(t) && (forall s :: !HasPeer(t, n, s))
    && Find(cfg, t.before, n).Some? && !Find(cfg, t.before, n).value.pendingConfirmation && Retiring(cfg, t, n)
  }

  /** In every run, a record starts retiring only through a usable turn that publishes no peer for it. */
  lemma MarkingWithdrawsPeer(cfg: Config, turns: seq<Turn>, i: nat, n: string)
    requires IsRun(cfg, turns) && i < |turns| && Retiring(cfg, turns[i], n)
    requires Find(cfg, turns[i].before, n).None? || !Find(cfg, turns[i].before, n).value.pendingConfirmation
    ensures Marks(cfg, turns[i], n)
  {
    RunHasChronicle(cfg, turns);
    assert Effect(cfg, turns[i], n);
    MarkingTurn(cfg, turns[i], n);
  }

  lemma {:induction false} RetiringWasMarked(cfg: Config, turns: seq<Turn>, k: nat, n: string) returns (p: nat)
    requires Chronicle(cfg, turns) && k < |turns| && Retiring(cfg, turns[k], n)
    ensures p <= k && Marks(cfg, turns[p], n) && forall m :: p <= m <= k ==> Retiring(cfg, turns[m], n)
  {
    assert Effect(cfg, turns[k], n);
    if k > 0 && Retiring(cfg, turns[k - 1], n) {
      p := RetiringWasMarked(cfg, turns, k - 1, n);
    } else {
      assert k > 0 ==> turns[k].before == turns[k - 1].after;
      MarkingTurn(cfg, turns[k], n);
      p := k;
    }
  }

  /**
   * In every run, a record disappears only in a turn over a usable snapshot that does not list it as present, with its
   * cloud resources gone, the composite settled and no peer for it; and an earlier turn, on a usable snapshot and
   * without a peer for it either, marked it, from where it has been retiring ever since.
   */
  lemma DeletionIsConfirmed(cfg: Config, turns: seq<Turn>, j: nat, n: string) returns (p: nat)
    requires IsRun(cfg, turns) && j < |turns| && Find(cfg, turns[j].before, n).Some?
             && Find(cfg, turns[j].after, n).None?
    ensures UsableTurn(turns[j]) && !IsPresent(EntryOf(ListedIn(turns[j]), n)) && forall s :: !HasPeer(turns[j], n, s)
    ensures var env := turns[j].input.env; env.absent(n).Yes? && env.synced(n).Yes? && !env.remove(n).Refused?
    ensures p < j && Marks(cfg, turns[p], n) && forall m :: p <= m < j ==> Retiring(cfg, turns[m], n)
  {
    RunHasChronicle(cfg, turns);
    assert Effect(cfg, turns[j], n);
    DeletingTurn(cfg, turns[j], n);
    assert j > 0 && turns[j].before == turns[j - 1].after;
    p := RetiringWasMarked(cfg, turns, j - 1, n);
  }

  /** In every run, a name that holds a slot when a turn begins keeps everybody else's peers off it for that turn. */
  lemma HeldSlotExcludesOthers(cfg: Config, turns: seq<Turn>, i: nat, n: string, m: string, slot: int)
    requires IsRun(cfg, turns) && i < |turns| && m != n
    requires Find(cfg, turns[i].before, n).Some? && Find(cfg, turns[i].before, n).value.slot == slot
    ensures !HasPeer(turns[i], m, slot)
  {
    RunHasChronicle(cfg, turns);
    assert Effect(cfg, turns[i], m) && NewSlotFree(cfg, turns[i], n, m);
    HoldingTurn(cfg, turns[i], n, m, slot);
  }

  // ---------------------------------------------------------------- quarantine

  ghost predicate Holds(cfg: Config, t: Turn, n: string, slot: int) {
    Find(cfg, t.after, n).Some? && Find(cfg, t.after, n).value.slot == slot
  }

  ghost predicate Retiring(cfg: Config, t: Turn, n: string) {
    Find(cfg, t.after, n).Some? && Find(cfg, t.after, n).value.pendingConfirmation
  }

  /** A pass over a usable snapshot that publishes no peer on the slot. */
  ghost predicate QuietOn(t: Turn, slot: int) {
    UsableTurn(t) && forall n :: !HasPeer(t, n, slot)
  }

  /** A turn that ends a name's hold on a slot deletes a record that was already retiring. */
  lemma HoldBreaks(cfg: Config, t: Turn, n: string, slot: int)
    requires Effect(cfg, t, n) && Find(cfg, t.before, n).Some? && Find(cfg, t.before, n).value.slot == slot
             && !Holds(cfg, t, n, slot)
    ensures Find(cfg, t.before, n).value.pendingConfirmation && Find(cfg, t.after, n).None?
  {}

  /** The turn that ends a name's hold on a slot is a confirmed deletion. */
  lemma {:induction false} HoldEnds(cfg: Config, turns: seq<Turn>, i: nat, j: nat, n: string,
                                    slot: int) returns (q: nat)
    requires Chronicle(cfg, turns) && i < j < |turns| && Holds(cfg, turns[i], n, slot) && !Holds(cfg, turns[j], n, slot)
    ensures i < q <= j && Holds(cfg, turns[q - 1], n, slot) && Retiring(cfg, turns[q - 1], n)
            && Find(cfg, turns[q].after, n).None?
    ensures forall k :: i <= k < q ==> Holds(cfg, turns[k], n, slot)
  {
    q := i + 1;
    while Holds(cfg, turns[q], n, slot)
      invariant i < q <= j && forall k :: i <= k < q ==> Holds(cfg, turns[k], n, slot)
      decreases j - q
    {
      q := q + 1;
    }
    assert Effect(cfg, turns[q], n) && turns[q].before == turns[q - 1].after && Holds(cfg, turns[q - 1], n, slot);
    HoldBreaks(cfg, turns[q], n, slot);
  }

  /** The turn at which a held name starts retiring. */
  lemma {:induction false} RetirementStarts(cfg: Config, turns: seq<Turn>, i: nat, q: nat, n: string,
                                            slot: int) returns (p: nat)
    requires i < q < |turns| && forall k :: i <= k <= q ==> Holds(cfg, turns[k], n, slot)
    requires !Retiring(cfg, turns[i], n) && Retiring(cfg, turns[q], n)
    ensures i < p <= q && !Retiring(cfg, turns[p - 1], n) && Retiring(cfg, turns[p], n)
  {
    p := i + 1;
    while !Retiring(cfg, turns[p], n)
      invariant i < p <= q && !Retiring(cfg, turns[p - 1], n)
      decreases q - p
    {
      p := p + 1;
    }
  }

  lemma HeldQuietly(cfg: Config, turns: seq<Turn>, k: nat, n: string, slot: int)
    requires Chronicle(cfg, turns) && 0 < k < |turns| && Holds(cfg, turns[k - 1], n, slot)
    requires UsableTurn(turns[k]) && !HasPeer(turns[k], n, slot)
    ensures QuietOn(turns[k], slot)
  {
    forall m ensures !HasPeer(turns[k], m, slot) {
      if m != n {
        assert turns[k].before == turns[k - 1].after;
        assert Effect(cfg, turns[k], m) && NewSlotFree(cfg, turns[k], n, m);
        HoldingTurn(cfg, turns[k], n, m, slot);
      }
    }
  }

  lemma QuarantineEnds(cfg: Config, turns: seq<Turn>, i: nat, j: nat, a: string, b: string, slot: int) returns (q: nat)
    requires Chronicle(cfg, turns) && i < j < |turns| && a != b && HasPeer(turns[i], a, slot)
             && HasPeer(turns[j], b, slot)
    ensures Holds(cfg, turns[i], a, slot) && !Retiring(cfg, turns[i], a)
    ensures i < q <= j && Retiring(cfg, turns[q - 1], a) && Find(cfg, turns[q].after, a).None?
    ensures forall k :: i <= k < q ==> Holds(cfg, turns[k], a, slot)
  {
    assert Effect(cfg, turns[i], a) && Effect(cfg, turns[j], b);
    PeerHolds(cfg, turns[i], a, slot);
    PeerHolds(cfg, turns[j], b, slot);
    assert Safe(cfg, turns[j].after);
    q := HoldEnds(cfg, turns, i, j, a, slot);
  }

  /** The turns that mark and delete a held record are quiet on its slot. */
  lemma MarkAndDeleteAreQuiet(cfg: Config, turns: seq<Turn>, k: nat, n: string, slot: int)
    requires Chronicle(cfg, turns) && 0 < k < |turns| && Holds(cfg, turns[k - 1], n, slot)
    requires (!Retiring(cfg, turns[k - 1], n) && Retiring(cfg, turns[k], n)) || Find(cfg, turns[k].after, n).None?
    ensures QuietOn(turns[k], slot)
  {
    assert turns[k].before == turns[k - 1].after && Effect(cfg, turns[k], n);
    if Find(cfg, turns[k].after, n).None? {
      DeletingTurn(cfg, turns[k], n);
    } else {
      MarkingTurn(cfg, turns[k], n);
    }
    HeldQuietly(cfg, turns, k, n, slot);
  }

  lemma ChronicleQuarantine(cfg: Config, turns: seq<Turn>, i: nat, j: nat, a: string, b: string,
                            slot: int) returns (p: nat, q: nat)
    requires Chronicle(cfg, turns) && i < j < |turns| && a != b && HasPeer(turns[i], a, slot)
             && HasPeer(turns[j], b, slot)
    ensures i < p < q < j && QuietOn(turns[p], slot) && QuietOn(turns[q], slot)
    ensures Retiring(cfg, turns[p], a) && Find(cfg, turns[q].after, a).None?
  {
    q := QuarantineEnds(cfg, turns, i, j, a, b, slot);
    p := RetirementStarts(cfg, turns, i, q - 1, a, slot);
    MarkAndDeleteAreQuiet(cfg, turns, p, a, slot);
    MarkAndDeleteAreQuiet(cfg, turns, q, a, slot);
  }

  /**
   * Quarantine, over every run: between a peer of one name and a later peer of another on the same slot lie two passes
   * over usable snapshots that publish nobody on that slot, the first withdrawing the name, the second deleting its
   * record. Aborted passes publish nothing; where all passes complete, both are published results without the slot.
   */
  lemma SlotQuarantine(cfg: Config, turns: seq<Turn>, i: nat, j: nat, a: string, b: string, slot: int) returns (p: nat,
                       q: nat)
    requires IsRun(cfg, turns) && i < j < |turns| && a != b && HasPeer(turns[i], a, slot) && HasPeer(turns[j], b, slot)
    ensures i < p < q < j && QuietOn(turns[p], slot) && QuietOn(turns[q], slot)
    ensures Retiring(cfg, turns[p], a) && Find(cfg, turns[q].after, a).None?
  {
    RunHasChronicle(cfg, turns);
    p, q := ChronicleQuarantine(cfg, turns, i, j, a, b, slot);
  }

  // ---------------------------------------------------------------- debounce

  /** The snapshot reached this name: its pass completed, or changed the name's record before it was cut short. */
  ghost predicate Reached(cfg: Config, t: Turn, n: string) {
    UsableTurn(t) && (t.outcome.Usable? || Find(cfg, t.before, n) != Find(cfg, t.after, n))
  }

  /**
   * Why a change tells: deciding on a name left out always moves its counter, and one that is listed keeps only a zero.
   */
  lemma ReachingShows(cfg: Config, store: Store, listed: map<string, Listed>, snap: Snapshot, env: Env, n: string)
    requires Find(cfg, store, n).Some? && !Find(cfg, store, n).value.pendingConfirmation
             && Kept(cfg, Find(cfg, store, n).value)
    ensures var r, d := Find(cfg, store, n), Verdict(cfg, store, listed, snap, env, n);
            && (n !in listed ==> d.after != r)
            && (IsPresent(EntryOf(listed, n)) && d.after == r ==> r.value.departureCount == 0)
  {}

  /** How many of the latest snapshots that reached the name have left it out, in a row. */
  ghost function Absences(cfg: Config, turns: seq<Turn>, n: string): nat {
    if turns == [] then 0
    else
      var last, earlier := turns[|turns| - 1], Absences(cfg, turns[..|turns| - 1], n);
      if !Reached(cfg, last, n) then earlier
      else if n in ListedIn(last) then 0
      else earlier + 1
  }

  /** The counter says `count`, while the record is not retiring. */
  ghost predicate Counts(r: Option<Record>, count: nat) {
    r.Some? && !r.value.pendingConfirmation ==> r.value.departureCount == count <= 2
  }

  /** One turn moves the counter with the snapshots that reach the name, and only with those. */
  lemma DebounceStep(cfg: Config, t: Turn, n: string, earlier: nat)
    requires Effect(cfg, t, n) && Safe(cfg, t.after) && Counts(Find(cfg, t.before, n), earlier)
    ensures Counts(Find(cfg, t.after, n), if !Reached(cfg, t, n) then earlier else if n in ListedIn(t) then 0
            else earlier + 1)
  {}

  /**
   * Exact debounce, over every run: the counter of a record not yet retiring is the number of consecutive snapshots
   * that reached the name and left it out, and stays below three. Turns without a usable snapshot never move it.
   */
  lemma {:induction false} ExactDebounce(cfg: Config, turns: seq<Turn>, n: string)
    requires Chronicle(cfg, turns) && turns != []
    ensures Counts(Find(cfg, turns[|turns| - 1].after, n), Absences(cfg, turns, n))
    decreases |turns|
  {
    var k := |turns| - 1;
    var t := turns[k];
    assert Effect(cfg, t, n) && Safe(cfg, t.after);
    if k > 0 {
      ChroniclePrefix(cfg, turns);
      ExactDebounce(cfg, turns[..k], n);
      assert turns[..k][k - 1] == turns[k - 1] && t.before == turns[k - 1].after;
    }
    DebounceStep(cfg, t, n, Absences(cfg, turns[..k], n));
  }

  lemma ChroniclePrefix(cfg: Config, turns: seq<Turn>)
    requires Chronicle(cfg, turns) && turns != []
    ensures Chronicle(cfg, turns[..|turns| - 1])
  {
    var init := turns[..|turns| - 1];
    forall i | 0 <= i < |init| ensures init[i] == turns[i] {}
  }

  lemma RunDebounce(cfg: Config, turns: seq<Turn>, n: string)
    requires IsRun(cfg, turns) && turns != []
    ensures Counts(Find(cfg, turns[|turns| - 1].after, n), Absences(cfg, turns, n))
  {
    RunHasChronicle(cfg, turns);
    ExactDebounce(cfg, turns, n);
  }
}
