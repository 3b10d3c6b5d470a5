/**
 * One reconcile of a load-balanced Gateway, from discovery to what is published: the composite's target size and
 * roster, the link's peers, the status members. internal/controller/gateway_controller.go, members.go, xgateway.go.
 */
module Fleet {
  import opened Text
  import opened Members
  import opened MemberSafety
  import MemberPass
  import MemberResults
  import LinkConfig
  import Discovery

  datatype Composite = Composite(targetSize: int, roster: seq<RosterEntry>)

  datatype State = State(store: Store, composite: Option<Composite>, peers: Option<seq<LinkConfig.Peer>>,
      members: seq<Status>)

  /** Where a pass may be cut short by a failing call that writes nothing published. */
  datatype Failing = Early | BeforeMembers | BeforePeers | BeforeLink

  /** What one pass meets. Each write may land, land and report an error, or be refused. */
  datatype Tick = Tick(replicas: int, tunnelOk: bool, hasForwards: bool, migReported: bool,
      snap: Option<Discovery.Snapshot>, env: Env,
                       failing: set<Failing>, writeComposite: Write, writeLink: Write, writeStatus: Write)

  /** What the members stage hands on; Waiting is the pass before the composite exists. */
  datatype Found = Stopped | Waiting | Got(outcome: Outcome)

  datatype Setup = Setup(cfg: Config, local: bool, port: nat)

  function Landed<T>(w: Write, before: T, after: T): T { if w.Refused? then before else after }

  function LastTarget(c: Option<Composite>): int { if c.Some? then c.value.targetSize else 0 }

  function AppliedRoster(c: Option<Composite>): seq<RosterEntry> { if c.Some? then c.value.roster else [] }

  function AppliedPeers(p: Option<seq<LinkConfig.Peer>>): seq<LinkConfig.Peer> { if p.Some? then p.value else [] }

  function Wanted(r: Result): Composite { Composite(r.targetSize, r.roster) }

  /** The composite a pass asks for: an unusable pass asks for what is there. */
  function DesiredComposite(c: Option<Composite>, replicas: int, found: Found): Composite
    requires !found.Stopped? && (found.Got? ==> !found.outcome.Aborted?)
  {
    match found
    case Waiting => Composite(replicas, [])
    case Got(Unusable(target)) => Composite(target, AppliedRoster(c))
    case Got(Usable(result)) => Wanted(result)
  }

  predicate Published(found: Found) { found.Got? && found.outcome.Usable? }

  function DesiredPeers(setup: Setup, p: Option<seq<LinkConfig.Peer>>, found: Found): seq<LinkConfig.Peer> {
    if Published(found) then LinkConfig.FleetLinkPeers(setup.local, setup.port, found.outcome.result.peers)
        else AppliedPeers(p)
  }

  /** A pass stops before it touches the members. */
  predicate Gated(s: State, tick: Tick) {
    || !tick.tunnelOk || Early in tick.failing || (!tick.hasForwards && s.composite.None?)
  }

  /** reconcileMembers: without a reported group the applied membership stands. */
  ghost function Discover(setup: Setup, s: State, tick: Tick): Pass {
    if !tick.migReported || s.composite.None? then Pass(Progress(s.store, [], false), Unusable(LastTarget(s.composite)))
    else Members.Reconcile(setup.cfg, s.store, tick.snap, tick.replicas, LastTarget(s.composite), tick.env)
  }

  ghost function FoundBy(setup: Setup, s: State, tick: Tick): Found {
    if Gated(s, tick) || tick.replicas > setup.cfg.capacity || BeforeMembers in tick.failing then Stopped
    else if s.composite.None? then Waiting
    else if Discover(setup, s, tick).outcome.Aborted? then Stopped
    else Got(Discover(setup, s, tick).outcome)
  }

  class Controller {
    const setup: Setup
    const db: MemberPass.RecordStore
    var composite: Option<Composite>
    var peers: Option<seq<LinkConfig.Peer>>
    var members: seq<Status>

    constructor (setup: Setup, db: MemberPass.RecordStore)
      ensures this.setup == setup && this.db == db && Abstract() == State(db.store, None, None, [])
    {
      this.setup, this.db, composite, peers, members := setup, db, None, None, [];
    }

    ghost function Abstract(): State
      reads this, db
    {
      State(db.store, composite, peers, members)
    }

    /** The members stage: nothing is written to the composite, the link or the status here. */
    method DiscoverMembers(tick: Tick) returns (found: Found)
      requires !Gated(Abstract(), tick) && tick.replicas <= setup.cfg.capacity && BeforeMembers !in tick.failing
      modifies db
      ensures found == old(FoundBy(setup, Abstract(), tick))
      ensures db.store == old(Discover(setup, Abstract(), tick)).progress.store
    {
      if !tick.migReported || composite.None? {
        return if composite.None? then Waiting else Got(Unusable(LastTarget(composite)));
      }
      var outcome := MemberPass.Reconcile(db, setup.cfg, tick.snap, tick.replicas, LastTarget(composite), tick.env);
      return if outcome.Aborted? then Stopped else Got(outcome);
    }

    /** One pass. Only the members stage touches records; publication then goes composite, link, status. */
    method Reconcile(tick: Tick) returns (found: Found)
      modifies this, db
      ensures found == old(FoundBy(setup, Abstract(), tick))
      ensures Follows(setup, old(Abstract()), tick, Abstract())
    {
      if Gated(State(db.store, composite, peers, members), tick) {
        return Stopped;
      }
      if tick.replicas > setup.cfg.capacity {
        if composite.Some? {
          var kept := Got(Unusable(LastTarget(composite)));
          composite := Landed(tick.writeComposite, composite, Some(DesiredComposite(composite, tick.replicas, kept)));
        }
        return Stopped;
      }
      if BeforeMembers in tick.failing {
        return Stopped;
      }
      found := DiscoverMembers(tick);
      if found.Stopped? {
        return;
      }
      Publish(tick, found);
    }

    /** The composite, then the link, then the status; the first write that does not succeed is the last. */
    method Publish(tick: Tick, found: Found)
      requires !found.Stopped? && (found.Got? ==> !found.outcome.Aborted?)
      modifies this
      ensures PublishedBy(setup, tick, found, old(Abstract()), Abstract())
    {
      composite := Landed(tick.writeComposite, composite, Some(DesiredComposite(composite, tick.replicas, found)));
      if !tick.writeComposite.Done? || BeforePeers in tick.failing || BeforeLink in tick.failing {
        return;
      }
      peers := Landed(tick.writeLink, peers, Some(DesiredPeers(setup, peers, found)));
      if !tick.writeLink.Done? {
        return;
      }
      if Published(found) {
        members := Landed(tick.writeStatus, members, found.outcome.result.members);
      }
    }
  }

  // ---------------------------------------------------------------- what a pass may change

  /** Each part either stands or is what the pass asks for, and all three are where no stage fails. */
  ghost predicate PublishedBy(setup: Setup, tick: Tick, found: Found, s: State, s': State)
    requires !found.Stopped? && (found.Got? ==> !found.outcome.Aborted?)
  {
    var wanted, peers := DesiredComposite(s.composite, tick.replicas, found), DesiredPeers(setup, s.peers, found);
    && s'.store == s.store
    && (s'.composite == s.composite || s'.composite == Some(wanted))
    && (s'.peers == s.peers || s'.peers == Some(peers))
    && (s'.members == s.members || (Published(found) && s'.members == found.outcome.result.members))
    && (Settles(tick) ==>
          s'.composite == Some(wanted) && s'.peers == Some(peers)
          && (Published(found) ==> s'.members == found.outcome.result.members))
  }

  /** Each published part either stands or is what this pass found; a part never written yet may be created empty. */
  ghost predicate Follows(setup: Setup, s: State, tick: Tick, s': State) {
    var found := FoundBy(setup, s, tick);
    && (s'.store == s.store || s'.store == Discover(setup, s, tick).progress.store)
    && (found.Got? ==> s'.store == if Published(found) then Discover(setup, s, tick).progress.store else s.store)
    && (if Published(found) then
          && (s'.composite == s.composite || s'.composite == Some(Wanted(found.outcome.result)))
          && (s'.peers == s.peers || s'.peers == Some(DesiredPeers(setup, s.peers, found)))
          && (s'.members == s.members || s'.members == found.outcome.result.members)
          && (Settles(tick) ==>
                && s'.composite == Some(Wanted(found.outcome.result))
                && s'.peers == Some(DesiredPeers(setup, s.peers, found))
                && s'.members == found.outcome.result.members)
        else Unpublished(setup.cfg.capacity, s, s'))
  }

  /** No stage of the pass fails. */
  predicate Settles(tick: Tick) {
    tick.failing == {} && tick.writeComposite.Done? && tick.writeLink.Done? && tick.writeStatus.Done?
  }

  /** The frame: target size, roster, peers and members as they were, or first created with nothing in them. */
  ghost predicate Unpublished(capacity: nat, s: State, s': State) {
    && s'.members == s.members
    && (s'.peers == s.peers || (s.peers.None? && s'.peers == Some([])))
    && (s'.composite == s.composite || (s.composite.None? && s'.composite.Some? && s'.composite.value.roster == []
          && s'.composite.value.targetSize <= capacity))
  }

  // ---------------------------------------------------------------- runs

  ghost predicate IsRun(setup: Setup, states: seq<State>, ticks: seq<Tick>) {
    && AddressesReady(setup.cfg) && |states| == |ticks| + 1
    && states[0].composite.None? && states[0].peers.None? && states[0].members == []
    && (forall n :: Find(setup.cfg, states[0].store, n).None?)
    && (forall i :: 0 <= i < |ticks| ==> Follows(setup, states[i], ticks[i], states[i + 1]))
  }

  ghost predicate Sound(setup: Setup, s: State) {
    && Safe(setup.cfg, s.store)
    && (s.composite.Some? ==> s.composite.value.targetSize <= setup.cfg.capacity)
    && (s.peers.Some? ==> LinkConfig.SlotsValid(s.peers.value))
  }

  lemma PublishedIsSound(setup: Setup, s: State, tick: Tick)
    requires AddressesReady(setup.cfg) && Sound(setup, s) && Published(FoundBy(setup, s, tick))
    ensures var result := FoundBy(setup, s, tick).outcome.result;
            result.targetSize <= setup.cfg.capacity
                && LinkConfig.SlotsValid(LinkConfig.FleetLinkPeers(setup.local, setup.port, result.peers))
  {
    var listed := ByName(tick.snap.value.members);
    MemberResults.RenderedPeersValidate(setup.cfg, s.store, listed, tick.snap.value, tick.replicas,
        LastTarget(s.composite), tick.env, setup.local, setup.port);
  }

  lemma SoundnessKept(setup: Setup, s: State, tick: Tick, s': State)
    requires AddressesReady(setup.cfg) && Sound(setup, s) && Follows(setup, s, tick, s')
    ensures Sound(setup, s')
  {
    PassIsSafe(setup.cfg, s.store, tick.snap, tick.replicas, LastTarget(s.composite), tick.env);
    if Published(FoundBy(setup, s, tick)) { PublishedIsSound(setup, s, tick); }
  }

  /** Over every run: records safe, the composite never above capacity, and the link's peers always valid. */
  lemma {:induction false} RunIsSound(setup: Setup, states: seq<State>, ticks: seq<Tick>, i: nat)
    requires IsRun(setup, states, ticks) && i < |states|
    ensures Sound(setup, states[i])
  {
    if i > 0 {
      RunIsSound(setup, states, ticks, i - 1);
      SoundnessKept(setup, states[i - 1], ticks[i - 1], states[i]);
    }
  }

  /**
   * While no pass is usable, what was published stays: same target, roster, peers and members however many passes go
   * by.
   */
  lemma {:induction false} UnusablePassesAreFrames(setup: Setup, states: seq<State>, ticks: seq<Tick>, i: nat, j: nat)
    requires IsRun(setup, states, ticks) && i <= j < |states|
    requires forall k :: i <= k < j ==> !Published(FoundBy(setup, states[k], ticks[k]))
    requires states[i].composite.Some? && states[i].peers.Some?
    ensures states[j].composite == states[i].composite && states[j].peers == states[i].peers
            && states[j].members == states[i].members
  {
    if i < j {
      UnusablePassesAreFrames(setup, states, ticks, i, j - 1);
      assert Follows(setup, states[j - 1], ticks[j - 1], states[j]);
    }
  }

  /** A usable pass with no failing stage publishes exactly its result, and later unusable passes keep showing it. */
  lemma LastUsablePassShows(setup: Setup, states: seq<State>, ticks: seq<Tick>, i: nat, j: nat)
    requires IsRun(setup, states, ticks) && i < j < |states|
    requires Published(FoundBy(setup, states[i], ticks[i])) && Settles(ticks[i])
    requires forall k :: i < k < j ==> !Published(FoundBy(setup, states[k], ticks[k]))
    ensures var result := FoundBy(setup, states[i], ticks[i]).outcome.result;
            && states[j].composite == Some(Wanted(result))
            && states[j].peers == Some(LinkConfig.FleetLinkPeers(setup.local, setup.port, result.peers))
            && states[j].members == result.members
  {
    assert Follows(setup, states[i], ticks[i], states[i + 1]);
    UnusablePassesAreFrames(setup, states, ticks, i + 1, j);
  }

  /** Over capacity, or without a usable snapshot, a pass is never a published one. */
  lemma WhenNothingIsPublished(setup: Setup, s: State, tick: Tick)
    requires tick.replicas > setup.cfg.capacity || tick.snap.None? || !tick.migReported || s.composite.None?
    ensures !Published(FoundBy(setup, s, tick))
  {}
}
