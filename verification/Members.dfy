/** Slot allocation and retirement of a fleet's members: internal/gcpmembers/reconcile.go. */
module Members {
  import opened Text
  import opened Records
  import opened Discovery

  /**
   * What a load-balanced Gateway fixes for its whole life. `eligible` serves the slots above 0; `namesOf` is the naming
   * contract for this Gateway's members (Named below says which).
   */
  datatype Config = Config(uid: string, project: string, capacity: nat, gatewayAddress: string, eligible: seq<string>,
                           subnetPrefix: nat, peerPublicKey: string, peerAllowedIPs: string,
                           namesOf: string -> Option<ResourceNames>)

  ghost predicate Named(cfg: Config) {
    forall n :: cfg.namesOf(n) == NameResourceNames(cfg.uid, cfg.project, n)
  }

  /** The namespace's records by Secret name: this Gateway's and everybody else's. */
  type Store = map<string, Record>

  /** The Secret name of a member; the empty name has none. */
  function Key(cfg: Config, name: string): Option<string> {
    if name != "" && cfg.namesOf(name).Some? then Some(cfg.namesOf(name).value.kubernetesSecret) else None
  }

  lemma KeyIsSecretName(cfg: Config, name: string)
    requires Named(cfg)
    ensures Key(cfg, name) == SecretName(cfg.uid, cfg.project, name)
  {
    EmptyNameHasNoKey(cfg.uid, cfg.project);
  }

  predicate Owns(cfg: Config, r: Record, name: string) {
    r.gatewayUID == cfg.uid && r.project == cfg.project && r.name == name
  }

  /** The record a pass adopts for a name, if any. */
  function Find(cfg: Config, store: Store, name: string): (r: Option<Record>)
    ensures r.Some? ==> Owns(cfg, r.value, name)
  {
    var k := Key(cfg, name);
    if k.Some? && k.value in store && Owns(cfg, store[k.value], name) then Some(store[k.value]) else None
  }

  /** deps.ListRecordNames: by owner label alone, whatever the project. */
  function Tracked(cfg: Config, store: Store): set<string> {
    set k | k in store && store[k].gatewayUID == cfg.uid && store[k].name != "" :: store[k].name
  }

  ghost function View(cfg: Config, store: Store): (v: map<string, Record>)
    ensures forall n :: n in v <==> Find(cfg, store, n).Some?
    ensures forall n :: n in v ==> v[n] == Find(cfg, store, n).value
    ensures v.Keys <= Tracked(cfg, store)
  {
    assert forall n :: Find(cfg, store, n).Some? ==> n in Tracked(cfg, store) by {
      forall n | Find(cfg, store, n).Some? ensures n in Tracked(cfg, store) {
        assert Key(cfg, n).value in store;
      }
    }
    map n | n in Tracked(cfg, store) && Find(cfg, store, n).Some? :: Find(cfg, store, n).value
  }

  lemma EmptyNameHasNoKey(uid: string, project: string)
    ensures SecretName(uid, project, "") == None
  {
    var p := NameBase(uid, project);
    if p.Some? {
      var base := Lower(p.value + "-" + "");
      assert base[|base| - 1] == '-';
    }
  }

  // ---------------------------------------------------------------- slots

  ghost predicate IsLowestFreeSlot(occupied: set<int>, capacity: nat, r: Option<nat>) {
    match r
    case Some(s) => s < capacity && s !in occupied && forall j :: 0 <= j < s ==> j in occupied
    case None => forall j :: 0 <= j < capacity ==> j in occupied
  }

  function LowestFreeSlot(occupied: set<int>, capacity: nat): (r: Option<nat>)
    ensures IsLowestFreeSlot(occupied, capacity, r)
  {
    if capacity == 0 then None
    else
      var below := LowestFreeSlot(occupied, capacity - 1);
      if below.Some? then below else if capacity - 1 !in occupied then Some(capacity - 1) else None
  }

  /** slot 0 takes the gateway's address, slot s > 0 the s-th eligible one. */
  function SlotAddress(cfg: Config, slot: int): Option<string> {
    if slot == 0 then Some(cfg.gatewayAddress)
    else if slot < 1 || slot - 1 >= |cfg.eligible| then None
    else Some(cfg.eligible[slot - 1])
  }

  ghost function Occupied(view: map<string, Record>): set<int> {
    set n | n in view :: view[n].slot
  }

  // ---------------------------------------------------------------- the environment of one pass

  type Keypair = k: (string, string) | k.0 != "" && k.1 != "" witness ("private", "public")

  /** How a write ends: done, done although an error came back, or refused. */
  datatype Write = Done | Lost | Refused

  datatype Answer = Yes | No(reason: string) | Failed(message: string)

  /** The answers the pass gets; each question is asked at most once per name. */
  datatype Env = Env(
    readFails: bool,                       // some read before the first write fails
    keypair: string -> Option<Keypair>,
    collides: string -> bool,              // the create meets an object of the same name
    create: string -> Write,
    relabel: string -> Write,
    absent: string -> Answer,              // are the member's cloud resources gone?
    synced: string -> Answer,              // has the composite settled?
    remove: string -> Write)

  // ---------------------------------------------------------------- allocation

  /** Where a run of writes got to, every store it passed through, and whether an error cut it short. */
  datatype Progress = Progress(store: Store, trail: seq<Store>, aborted: bool)

  function Detail(snap: Snapshot, name: string): string {
    if name in snap.details then snap.details[name] else ""
  }

  function FreshRecord(cfg: Config, name: string, slot: nat, address: string, keys: Keypair, listed: Listed,
                       snap: Snapshot): Record {
    Record(name, listed.zone, slot, keys.0, keys.1, address, cfg.subnetPrefix, cfg.peerPublicKey, cfg.peerAllowedIPs,
           Detail(snap, name), listed.instanceID, listed.revision, 0, false, cfg.uid, cfg.project)
  }

  ghost function TryAllocate(cfg: Config, store: Store, name: string, listed: Listed, snap: Snapshot,
                             env: Env): Progress {
    var slot := LowestFreeSlot(Occupied(View(cfg, store)), cfg.capacity);
    if slot.None? then Progress(store, [], false)
    else
      var address := SlotAddress(cfg, slot.value);
      var keys := env.keypair(name);
      var key := Key(cfg, name);
      if address.None? || keys.None? || key.None? then Progress(store, [], true)
      else if key.value in store || env.collides(name) then Progress(store, [], false)
      else
        var after := store[key.value := FreshRecord(cfg, name, slot.value, address.value, keys.value, listed, snap)];
        match env.create(name)
        case Done => Progress(after, [after], false)
        case Lost => Progress(after, [after], true)
        case Refused => Progress(store, [], true)
  }

  ghost function AllocateAll(cfg: Config, store: Store, names: seq<string>, listed: map<string, Listed>, snap: Snapshot,
                             env: Env): Progress
    requires forall n :: n in names ==> n in listed
    decreases |names|
  {
    if names == [] then Progress(store, [], false)
    else
      var p := TryAllocate(cfg, store, names[0], listed[names[0]], snap, env);
      if p.aborted then p
      else
        var q := AllocateAll(cfg, p.store, names[1..], listed, snap, env);
        Progress(q.store, p.trail + q.trail, q.aborted)
  }

  // ---------------------------------------------------------------- one name

  datatype State = PendingState | ActiveState | RecreatingState | DepartingState | DepartedState

  datatype Status = Status(name: string, zone: string, slot: int, tunnelAddress: string, externalAddress: string,
                           instanceID: string, revision: string, state: State, message: string)

  function PendingMember(name: string): Status { Status(name, "", 0, "", "", "", "", PendingState, "") }

  function MemberStatus(r: Record, zone: string, revision: string, state: State, message: string): Status {
    Status(r.name, zone, r.slot, r.tunnelAddress, r.externalAddress, r.instanceID, revision, state, message)
  }

  /** The record to leave behind (none: deleted), the status to publish, and whether the member keeps its peer. */
  datatype Decision = Decision(after: Option<Record>, status: Option<Status>, live: bool)

  function NonEmptyOr(observed: string, kept: string): string { if observed != "" then observed else kept }

  /** resumeActive: what a listed, present member's record becomes. */
  function Resumed(r: Record, listed: Listed, snap: Snapshot): Record {
    r.(departureCount := 0, pendingConfirmation := false, externalAddress :=
        NonEmptyOr(Detail(snap, r.name), r.externalAddress),
       instanceID := NonEmptyOr(listed.instanceID, r.instanceID), zone := NonEmptyOr(listed.zone, r.zone),
       revision := NonEmptyOr(listed.revision, r.revision))
  }

  function Resume(r: Record, listed: Listed, snap: Snapshot): Decision {
    var after := Resumed(r, listed, snap);
    var state := if listed.action.Recreating? then RecreatingState else ActiveState;
    Decision(Some(after), Some(MemberStatus(after, listed.zone, listed.revision, state, "")), true)
  }

  /** debounceAbsence: the third usable snapshot in a row without the name departs it. */
  function Debounce(r: Record): Decision {
    var count := r.departureCount + 1;
    if count >= 3 then
      var after := r.(departureCount := 3, pendingConfirmation := true);
      Decision(Some(after), Some(MemberStatus(after, r.zone, r.revision, DepartedState, "")), false)
    else
      var after := r.(departureCount := count);
      Decision(Some(after), Some(MemberStatus(after, r.zone, r.revision, DepartingState, "")), true)
  }

  function Depart(r: Record, listed: Listed): Decision {
    Decision(Some(r.(pendingConfirmation := true)), Some(MemberStatus(r, listed.zone, r.revision, DepartedState, "")),
        false)
  }

  function Blocked(r: Record, listed: Option<Listed>, message: string): Status {
    MemberStatus(r, if listed.Some? then listed.value.zone else r.zone, r.revision, DepartedState, message)
  }

  /** Confirmation: cloud resources gone, then the composite settled, then the record deleted. */
  function Confirm(r: Record, listed: Option<Listed>, env: Env): Decision {
    var absent, synced := env.absent(r.name), env.synced(r.name);
    if absent.Failed? then Decision(Some(r), Some(Blocked(r, listed, absent.message)), false)
    else if absent.No? then Decision(Some(r), Some(Blocked(r, listed, absent.reason)), false)
    else if synced.Failed? then Decision(Some(r), Some(Blocked(r, listed, synced.message)), false)
    else if synced.No? then Decision(Some(r), Some(Blocked(r, listed, synced.reason)), false)
    else match env.remove(r.name)
      case Done => Decision(None, None, false)
      case Lost => Decision(None, Some(Blocked(r, listed, "delete")), false)
      case Refused => Decision(Some(r), Some(Blocked(r, listed, "delete")), false)
  }

  predicate IsPresent(listed: Option<Listed>) { listed.Some? && listed.value.verdict.Present? }
  predicate IsDeparted(listed: Option<Listed>) { listed.Some? && listed.value.verdict.Departed? }

  function Decide(name: string, rec: Option<Record>, listed: Option<Listed>, snap: Snapshot, env: Env): Decision {
    if rec.None? then Decision(None, Some(PendingMember(name)), false)
    else if rec.value.pendingConfirmation then
      (if IsPresent(listed) then Resume(rec.value, listed.value, snap) else Confirm(rec.value, listed, env))
    else if IsDeparted(listed) then Depart(rec.value, listed.value)
    else if IsPresent(listed) then Resume(rec.value, listed.value, snap)
    else Debounce(rec.value)
  }

  // ---------------------------------------------------------------- all names

  function EntryOf(listed: map<string, Listed>, name: string): Option<Listed> {
    if name in listed then Some(listed[name]) else None
  }

  /** Carries one decision into the store; only a relabel can abort the pass. */
  ghost function Carry(cfg: Config, store: Store, name: string, before: Option<Record>, d: Decision,
                       env: Env): Progress {
    var key := Key(cfg, name);
    if before == d.after || key.None? then Progress(store, [], false)
    else if d.after.None? then Progress(store - {key.value}, [store - {key.value}], false)
    else
      var after := store[key.value := d.after.value];
      match env.relabel(name)
      case Done => Progress(after, [after], false)
      case Lost => Progress(after, [after], true)
      case Refused => Progress(store, [], true)
  }

  /** A pass over names: the published statuses and the records of the members that keep their peer. */
  datatype Walk = Walk(progress: Progress, members: seq<Status>, live: seq<Record>)

  ghost function ProcessAll(cfg: Config, store: Store, names: seq<string>, listed: map<string, Listed>, snap: Snapshot,
                            env: Env): Walk
    decreases |names|
  {
    if names == [] then Walk(Progress(store, [], false), [], [])
    else
      var before := Find(cfg, store, names[0]);
      var d := Decide(names[0], before, EntryOf(listed, names[0]), snap, env);
      var p := Carry(cfg, store, names[0], before, d, env);
      if p.aborted then Walk(p, [], [])
      else
        var rest := ProcessAll(cfg, p.store, names[1..], listed, snap, env);
        Walk(Progress(rest.progress.store, p.trail + rest.progress.trail, rest.progress.aborted),
             (if d.status.Some? then [d.status.value] else []) + rest.members,
             (if d.live && d.after.Some? then [d.after.value] else []) + rest.live)
  }

  // ---------------------------------------------------------------- the pass

  datatype Peer = Peer(slot: int, publicKey: string, externalAddress: string, tunnelAddress: string)

  datatype RosterEntry = RosterEntry(name: string, slot: int, tunnelAddress: string, names: Option<ResourceNames>)

  function BuildPeer(r: Record): Peer { Peer(r.slot, r.publicKey, r.externalAddress, r.tunnelAddress) }

  function BuildRosterEntry(cfg: Config, r: Record): RosterEntry {
    RosterEntry(r.name, r.slot, r.tunnelAddress, cfg.namesOf(r.name))
  }

  datatype Result = Result(members: seq<Status>, targetSize: int, peers: seq<Peer>, roster: seq<RosterEntry>)

  datatype Outcome = Aborted | Unusable(targetSize: int) | Usable(result: Result)

  datatype Pass = Pass(progress: Progress, outcome: Outcome)

  function ComputeTargetSize(desired: int, capacity: nat, lastAccepted: int): int {
    if desired <= capacity then desired else lastAccepted
  }

  /** listedByName: a later entry of the same name replaces an earlier one. */
  function ByName(members: seq<Listed>): (m: map<string, Listed>)
    ensures forall n :: n in m ==> m[n] in members && m[n].name == n
    ensures forall l :: l in members ==> l.name in m
  {
    if members == [] then map[]
    else
      var last := members[|members| - 1];
      ByName(members[..|members| - 1])[last.name := last]
  }

  function Peers(live: seq<Record>): seq<Peer> {
    seq(|live|, i requires 0 <= i < |live| => BuildPeer(live[i]))
  }

  function Roster(cfg: Config, live: seq<Record>): seq<RosterEntry> {
    seq(|live|, i requires 0 <= i < |live| => BuildRosterEntry(cfg, live[i]))
  }

  /** Every name listed or tracked. */
  ghost predicate AreNames(cfg: Config, store: Store, listed: map<string, Listed>, all: set<string>) {
    forall n :: n in all <==> n in listed || n in Tracked(cfg, store)
  }

  ghost function AllNames(cfg: Config, store: Store, listed: map<string, Listed>): (all: set<string>)
    ensures AreNames(cfg, store, listed, all)
  {
    assert AreNames(cfg, store, listed, listed.Keys + Tracked(cfg, store));
    var all: set<string> :| AreNames(cfg, store, listed, all);
    all
  }

  /** Every name listed as present and without a record of this Gateway. */
  ghost predicate AreCandidates(cfg: Config, store: Store, listed: map<string, Listed>, c: set<string>) {
    forall n :: n in c <==> n in listed && listed[n].verdict.Present? && Find(cfg, store, n).None?
  }

  ghost function Candidates(cfg: Config, store: Store, listed: map<string, Listed>): (c: set<string>)
    ensures AreCandidates(cfg, store, listed, c)
  {
    assert AreCandidates(cfg, store, listed, set n | n in listed && listed[n].verdict.Present?
        && Find(cfg, store, n).None?);
    var c: set<string> :| AreCandidates(cfg, store, listed, c);
    c
  }

  /** Allocates for the candidates, then settles every name; `targetSize` is already decided. */
  ghost function Phases(cfg: Config, store: Store, candidates: seq<string>, names: seq<string>, listed: map<string,
                        Listed>, snap: Snapshot, targetSize: int, env: Env): Pass
    requires forall n :: n in candidates ==> n in listed
  {
    var p := AllocateAll(cfg, store, candidates, listed, snap, env);
    if p.aborted then Pass(p, Aborted)
    else
      var w := ProcessAll(cfg, p.store, names, listed, snap, env);
      var progress := Progress(w.progress.store, p.trail + w.progress.trail, w.progress.aborted);
      Pass(progress, if progress.aborted then Aborted
          else Usable(Result(w.members, targetSize, Peers(w.live), Roster(cfg, w.live))))
  }

  /** A read fails, or a name breaks the naming contract, before anything is written. */
  ghost predicate CannotRead(cfg: Config, names: set<string>, env: Env) {
    env.readFails || exists n :: n in names && Key(cfg, n).None?
  }

  /** One pass over a usable snapshot; `desired` and `lastAccepted` are replica counts. */
  ghost function ReconcileUsable(cfg: Config, store: Store, listed: map<string, Listed>, snap: Snapshot, desired: int,
                                 lastAccepted: int, env: Env): Pass {
    var all := AllNames(cfg, store, listed);
    if CannotRead(cfg, all, env) then Pass(Progress(store, [], true), Aborted)
    else Phases(cfg, store, SortedNames(Candidates(cfg, store, listed)), SortedNames(all), listed, snap,
                ComputeTargetSize(desired, cfg.capacity, lastAccepted), env)
  }

  ghost function Reconcile(cfg: Config, store: Store, snap: Option<Snapshot>, desired: int, lastAccepted: int,
                           env: Env): Pass {
    if snap.None? then Pass(Progress(store, [], false), Unusable(lastAccepted))
    else ReconcileUsable(cfg, store, ByName(snap.value.members), snap.value, desired, lastAccepted, env)
  }
}
