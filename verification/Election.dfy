/**
 * Leadership cycles and fencing: runElection, endCycle, fenceCycle, fenceKept and claimPendingFence in
 * internal/link/election.go, as the interleaving of their goroutines' atomic steps.
 *
 * client-go is the environment: it writes the Lease only inside Run, starts the leadership callback exactly when an
 * acquisition write succeeded, and may end either at any time. When an elector context or a clock fires is left open;
 * what each goroutine waits for is not.
 */
module Election {

  // ---------------------------------------------------------------- state

  /** Where a cycle's leadership callback is. */
  datatype Callback =
    | Idle | Starting | Claimed
    | Ready                       // loop registered, not yet entered
    | Looping
    | Exited                      // reload loop returned, its exit signalled
    | Forced | ForcedFencing | ForcedDone
    | Deciding(forced: bool)
    | Handing | Tearing | TearFencing
    | Closing | TornDown | Finished

  function Rank(c: Callback): nat {
    match c
    case Idle => 0
    case Starting => 1
    case Claimed => 2
    case Ready => 3
    case Looping => 4
    case Exited => 5
    case Forced => 6
    case ForcedFencing => 7
    case ForcedDone => 8
    case Deciding(_) => 9
    case Handing => 10
    case Tearing => 10
    case TearFencing => 11
    case Closing => 12
    case TornDown => 13
    case Finished => 14
  }

  predicate LoopExited(c: Callback) { Rank(c) >= 5 }

  /**
   * One leadershipCycle with its lock. `early` remembers that the cycle was ended before its loop registered, `applied`
   * that it ever applied, `timedOut` that an endCycle call gave up waiting on it while there was something to wait for.
   */
  datatype Cycle = Cycle(ended: bool, leaving: bool, writing: bool, acquired: bool, registered: bool, stopped: bool,
                         cancelled: bool, fenced: bool, callback: Callback, early: bool, applied: bool, timedOut: bool)

  /** A call of endCycle: shutdown, lapsed entry or handoff, possibly long after its cycle. */
  datatype EnderPhase =
    | Called | MarkedEnded | Waiting | Drained
    | SawAcquired | KnowsStop | AskedStop | SawExit | EndFencing | SawFence | Cancelling | Gone

  datatype Ender = Ender(cycle: nat, phase: EnderPhase)

  datatype Main = Gate | Running | Joining | Exiting | ExitFencing | Returned

  /** fenceMu: who is inside a fence, if anybody. */
  datatype Mutex = Free | ByCallback | ByEnder(i: nat) | ByKept | ByMain

  /**
   * `pending` is the kept-plane flag, `live` whether the node may carry a programmed plane. A fence ends as its
   * step-down does: one that fails or runs out of its budget is only logged, and `incomplete` remembers that the last
   * one was such.
   */
  datatype State = State(main: Main, mutex: Mutex, pending: bool, live: bool, incomplete: bool, cycles: seq<Cycle>,
      enders: seq<Ender>)

  function Start(inherited: bool): State { State(Gate, Free, inherited, inherited, false, [], []) }

  function NewCycle(): Cycle {
    Cycle(false, false, false, false, false, false, false, false, Idle, false, false, false)
  }

  predicate HasCurrent(s: State) { (s.main.Running? || s.main.Joining?) && |s.cycles| > 0 }

  function Current(s: State): Cycle
    requires |s.cycles| > 0
  {
    s.cycles[|s.cycles| - 1]
  }

  function Put(s: State, k: nat, c: Cycle): State
    requires k < |s.cycles|
  {
    s.(cycles := s.cycles[k := c])
  }

  function PutCurrent(s: State, c: Cycle): State
    requires |s.cycles| > 0
  {
    Put(s, |s.cycles| - 1, c)
  }

  function Move(s: State, i: nat, phase: EnderPhase): State
    requires i < |s.enders|
  {
    s.(enders := s.enders[i := s.enders[i].(phase := phase)])
  }

  // ---------------------------------------------------------------- steps

  /** Steps of the leadership callback of the current cycle. */
  datatype CallbackAct =
    | CallbackStarts | Claim | Register | EnterLoop | Apply | LeaveLoop | Judge(failed: bool)
    | CallbackFence | CallbackSkip | CallbackFenceEnd(ok: bool) | ForcedCancel | Decide(keep: bool) | HandOver
        | TeardownDone | Finish

  /** Steps of one call of endCycle. */
  datatype EnderAct =
    | MarkEnded | RefuseWrites | SeeDrained | DrainTimeout | CheckAcquired | SeeRegistered | RegisterTimeout | AskStop
        | SeeExit
    | EnderFence | EnderSkip | EnderFenceEnd(ok: bool) | SeeTeardown | Cancel

  /**
   * Every step: runElection's own goroutine with the Lease writes inside Run, the others, and fences of a kept plane.
   */
  datatype Action =
    | Begin | BeginWrite | EndWrite(success: bool) | RunReturns | Join(exit: bool) | Leave | ExitFence
        | ExitFenceEnd(ok: bool) | ExitSkip
    | Lead(act: CallbackAct)
    | Call(cycle: nat)
    | End(i: nat, step: EnderAct)
    | KeptFence | KeptFenceEnd(ok: bool)

  // The leadership callback on its own cycle; `free` is whether fenceMu is, `pending` the kept-plane flag.

  predicate CallbackCan(c: Cycle, free: bool, pending: bool, a: CallbackAct)
  {
    match a
    case CallbackStarts => c.callback.Idle? && c.acquired
    case Claim => c.callback.Starting? && free
    case Register => c.callback.Claimed?
    case EnterLoop => c.callback.Ready? && !c.stopped
    case Apply => c.callback.Looping?
    case LeaveLoop => c.callback.Ready? || c.callback.Looping?
    case Judge(_) => c.callback.Exited?
    case CallbackFence => (c.callback.Forced? || c.callback.Tearing?) && free && !c.fenced && !pending
    case CallbackSkip => (c.callback.Forced? || c.callback.Tearing?) && free && (c.fenced || pending)
    case CallbackFenceEnd(_) => c.callback.ForcedFencing? || c.callback.TearFencing?
    case ForcedCancel => c.callback.ForcedDone?
    case Decide(keep) => c.callback.Deciding? && (keep ==> !c.callback.forced && !c.ended)
    case HandOver => c.callback.Handing? && free
    case TeardownDone => c.callback.Closing?
    case Finish => c.callback.TornDown?
  }

  function PhaseAfter(p: Callback, a: CallbackAct): Callback {
    match a
    case CallbackStarts => Starting
    case Claim => Claimed
    case Register => Ready
    case EnterLoop => Looping
    case Apply => p
    case LeaveLoop => Exited
    case Judge(failed) => if failed then Forced else Deciding(false)
    case CallbackFence => if p.Forced? then ForcedFencing else TearFencing
    case CallbackSkip => if p.Forced? then ForcedDone else Closing
    case CallbackFenceEnd(_) => if p.ForcedFencing? then ForcedDone else Closing
    case ForcedCancel => Deciding(true)
    case Decide(keep) => if keep then Handing else Tearing
    case HandOver => Closing
    case TeardownDone => TornDown
    case Finish => Finished
  }

  function CallbackDo(c: Cycle, a: CallbackAct): Cycle {
    c.(callback := PhaseAfter(c.callback, a),
       registered := c.registered || a.Register?,
       stopped := c.stopped || a.LeaveLoop? || (a.Register? && c.ended),
       applied := c.applied || a.Apply?,
       fenced := c.fenced || a.CallbackFence? || a.HandOver?,
       cancelled := c.cancelled || a.ForcedCancel?)
  }

  // A call of endCycle on its cycle.

  predicate EnderCan(c: Cycle, phase: EnderPhase, free: bool, pending: bool, a: EnderAct)
  {
    match a
    case MarkEnded => phase.Called?
    case RefuseWrites => phase.MarkedEnded?
    case SeeDrained => phase.Waiting? && !c.writing
    case DrainTimeout => phase.Waiting?
    case CheckAcquired => phase.Drained?
    case SeeRegistered => phase.SawAcquired? && c.registered
    case RegisterTimeout => phase.SawAcquired?
    case AskStop => phase.KnowsStop?
    case SeeExit => phase.AskedStop? && LoopExited(c.callback)
    case EnderFence => phase.SawExit? && free && !c.fenced && !pending
    case EnderSkip => phase.SawExit? && free && (c.fenced || pending)
    case EnderFenceEnd(_) => phase.EndFencing?
    case SeeTeardown => phase.SawFence? && Rank(c.callback) >= 13
    case Cancel => phase.Cancelling?
  }

  function EnderMoves(c: Cycle, a: EnderAct): EnderPhase
  {
    match a
    case MarkEnded => MarkedEnded
    case RefuseWrites => Waiting
    case SeeDrained => Drained
    case DrainTimeout => Drained
    case CheckAcquired => if c.acquired then SawAcquired else Cancelling
    case SeeRegistered => KnowsStop
    case RegisterTimeout => if c.registered then KnowsStop else Cancelling
    case AskStop => AskedStop
    case SeeExit => SawExit
    case EnderFence => EndFencing
    case EnderSkip => SawFence
    case EnderFenceEnd(_) => SawFence
    case SeeTeardown => Cancelling
    case Cancel => Gone
  }

  function EnderDo(c: Cycle, a: EnderAct): Cycle {
    c.(ended := c.ended || a.MarkEnded?,
       early := c.early || (a.MarkEnded? && !c.registered),
       leaving := c.leaving || a.RefuseWrites?,
       stopped := c.stopped || a.AskStop?,
       fenced := c.fenced || a.EnderFence?,
       cancelled := c.cancelled || a.Cancel?,
       timedOut := c.timedOut || (a.DrainTimeout? && c.writing) || (a.RegisterTimeout? && !c.registered))
  }

  // All goroutines together.

  predicate Enabled(s: State, a: Action) {
    match a
    case Begin => s.main.Gate?
    case BeginWrite => s.main.Running? && HasCurrent(s) && !Current(s).leaving && !Current(s).acquired
        && !Current(s).writing
    case EndWrite(_) => s.main.Running? && HasCurrent(s) && Current(s).writing
    case RunReturns => s.main.Running? && HasCurrent(s) && !Current(s).writing
    case Join(_) => s.main.Joining? && HasCurrent(s) && (Current(s).acquired ==> Current(s).callback.Finished?)
    case Leave => s.main.Gate?
    case ExitFence => s.main.Exiting? && s.mutex.Free? && s.pending
    case ExitFenceEnd(_) => s.main.ExitFencing?
    case ExitSkip => s.main.Exiting? && s.mutex.Free? && !s.pending
    case Lead(act) => HasCurrent(s) && CallbackCan(Current(s), s.mutex.Free?, s.pending, act)
    case Call(k) => k < |s.cycles|
    case End(i, step) => EnderEnabled(s, i, step)
    case KeptFence => s.mutex.Free? && s.pending
    case KeptFenceEnd(_) => s.mutex.ByKept?
  }

  predicate EnderEnabled(s: State, i: nat, a: EnderAct) {
    && i < |s.enders| && s.enders[i].cycle < |s.cycles|
    && EnderCan(s.cycles[s.enders[i].cycle], s.enders[i].phase, s.mutex.Free?, s.pending, a)
  }

  // What a step does to fenceMu, which only the start and the end of a fence move, to the flag and to the plane.

  function MutexAfter(m: Mutex, a: CallbackAct): Mutex {
    if a.CallbackFence? then ByCallback else if a.CallbackFenceEnd? then Free else m
  }

  function MutexAfterEnder(m: Mutex, i: nat, a: EnderAct): Mutex {
    if a.EnderFence? then ByEnder(i) else if a.EnderFenceEnd? then Free else m
  }

  /** A hand-over of a cycle nobody fenced sets the kept-plane flag; a claim clears it. */
  function PendingAfter(pending: bool, fenced: bool, a: CallbackAct): bool {
    if a.HandOver? then pending || !fenced else if a.Claim? then false else pending
  }

  /** Only a complete fence takes the plane away. */
  function LiveAfter(live: bool, a: CallbackAct): bool {
    if a.Apply? then true else if a.CallbackFenceEnd? then live && !a.ok else live
  }

  function LeadNext(s: State, a: CallbackAct): State
    requires HasCurrent(s)
  {
    PutCurrent(s, CallbackDo(Current(s), a)).(
      mutex := MutexAfter(s.mutex, a), pending := PendingAfter(s.pending, Current(s).fenced, a), live :=
          LiveAfter(s.live, a),
      incomplete := if a.CallbackFenceEnd? then !a.ok else s.incomplete)
  }

  function EndNext(s: State, i: nat, a: EnderAct): State
    requires i < |s.enders| && s.enders[i].cycle < |s.cycles|
  {
    var c := s.cycles[s.enders[i].cycle];
    Move(Put(s, s.enders[i].cycle, EnderDo(c, a)), i, EnderMoves(c, a)).(
      mutex := MutexAfterEnder(s.mutex, i, a), live := s.live && !(a.EnderFenceEnd? && a.ok),
      incomplete := if a.EnderFenceEnd? then !a.ok else s.incomplete)
  }

  function Next(s: State, a: Action): State
    requires Enabled(s, a)
  {
    match a
    case Begin => s.(main := Running, cycles := s.cycles + [NewCycle()])
    case BeginWrite => PutCurrent(s, Current(s).(writing := true))
    case EndWrite(success) => PutCurrent(s, Current(s).(writing := false, acquired := Current(s).acquired || success))
    case RunReturns => s.(main := Joining)
    case Join(exit) => PutCurrent(s, Current(s).(cancelled := true)).(main := if exit then Exiting else Gate)
    case Leave => s.(main := Exiting)
    case ExitFence => s.(main := ExitFencing, mutex := ByMain, pending := false)
    case ExitFenceEnd(ok) => s.(main := Returned, mutex := Free, live := s.live && !ok, incomplete := !ok)
    case ExitSkip => s.(main := Returned)
    case Lead(act) => LeadNext(s, act)
    case Call(k) => s.(enders := s.enders + [Ender(k, Called)])
    case End(i, step) => EndNext(s, i, step)
    case KeptFence => s.(mutex := ByKept, pending := false)
    case KeptFenceEnd(ok) => s.(mutex := Free, live := s.live && !ok, incomplete := !ok)
  }

  // ---------------------------------------------------------------- invariant

  predicate CycleOk(c: Cycle) {
    && (!c.callback.Idle? ==> c.acquired)
    && (c.registered <==> Rank(c.callback) >= 3)
    && (c.fenced ==> Rank(c.callback) >= 5)
    && (Rank(c.callback) >= 12 || c.callback.ForcedFencing? || c.callback.ForcedDone? || c.callback.TearFencing? ==>
          c.fenced)
    && (c.callback.Deciding? && c.callback.forced ==> c.fenced)
    && (c.early ==> c.ended) && (c.early && c.registered ==> c.stopped)
    && (c.early ==> !c.callback.Looping? && !c.applied)
    && (Rank(c.callback) < 4 ==> !c.applied)
    && (c.acquired ==> !c.writing)
  }

  /** Over and done with: never acquired, or its callback returned. */
  predicate Closed(c: Cycle) { !c.writing && (c.acquired ==> c.callback.Finished?) }

  ghost predicate CyclesOk(s: State) {
    && (forall k :: 0 <= k < |s.cycles| ==> CycleOk(s.cycles[k]))
    && (forall k :: 0 <= k < |s.cycles| - 1 ==> Closed(s.cycles[k]))
    && (s.main.Running? || s.main.Joining? ==> |s.cycles| > 0)
    && (s.main.Joining? ==> !Current(s).writing)
    && (!HasCurrent(s) && |s.cycles| > 0 ==> Closed(Current(s)))
  }

  /** A callback holds the plane from its claim until it is fenced or handed over. */
  predicate Holds(c: Cycle) { Rank(c.callback) >= 2 && !c.fenced }

  predicate Fencing(c: Cycle) { c.callback.ForcedFencing? || c.callback.TearFencing? }

  /** A plane that may be there without a failed fence to explain it. */
  predicate Unexcused(s: State) { s.live && !s.incomplete }

  /** At most one of flag, cycle and running fence is responsible for the plane; a plane that must have one, has one. */
  predicate Owned(holds: bool, fencing: bool, mutex: Mutex, pending: bool, must: bool) {
    && (mutex.ByCallback? <==> fencing)
    && (!mutex.Free? ==> !pending && !holds)
    && (holds ==> !pending)
    && (must ==> pending || holds || !mutex.Free?)
  }

  predicate OwnerOk(c: Cycle, mutex: Mutex, pending: bool, must: bool) {
    Owned(Holds(c), Fencing(c), mutex, pending, must)
  }

  function Latest(s: State): Cycle { if |s.cycles| > 0 then Current(s) else NewCycle() }

  ghost predicate MutexOk(s: State) {
    && OwnerOk(Latest(s), s.mutex, s.pending, Unexcused(s))
    && (s.mutex.ByMain? <==> s.main.ExitFencing?)
    && (s.mutex.ByEnder? ==> s.mutex.i < |s.enders|)
    && (forall i :: 0 <= i < |s.enders| ==> (s.enders[i].phase.EndFencing? <==> s.mutex == ByEnder(i)))
    && (s.main.Returned? ==> !s.pending && s.mutex.Free?)
  }

  /** A fence an endCycle call is running: the callback cannot have got past it. */
  predicate Blocked(c: Cycle) {
    c.fenced && LoopExited(c.callback) && Rank(c.callback) < 12 && !c.callback.ForcedDone?
        && !(c.callback.Deciding? && c.callback.forced)
  }

  /** What an endCycle call may rely on at each of its points. */
  predicate EnderOk(phase: EnderPhase, c: Cycle) {
    match phase
    case Called => true
    case MarkedEnded => c.ended
    case Waiting => c.ended && c.leaving
    case Drained => c.leaving && (c.timedOut || !c.writing)
    case SawAcquired => c.acquired
    case KnowsStop => c.registered
    case AskedStop => c.registered && c.stopped
    case SawExit => LoopExited(c.callback)
    case EndFencing => Blocked(c)
    case SawFence => c.fenced
    case Cancelling => c.timedOut || (if c.acquired then Rank(c.callback) >= 13 else c.leaving && !c.writing)
    case Gone => true
  }

  ghost predicate EndersOk(s: State) {
    forall i :: 0 <= i < |s.enders| ==>
        s.enders[i].cycle < |s.cycles| && EnderOk(s.enders[i].phase, s.cycles[s.enders[i].cycle])
  }

  /** Somebody is inside a fence of cycle k right now. */
  ghost predicate InFence(s: State, k: nat) {
    || (s.mutex.ByCallback? && k == |s.cycles| - 1)
    || (s.mutex.ByEnder? && s.mutex.i < |s.enders| && s.enders[s.mutex.i].cycle == k)
  }

  /**
   * Released rightly, unless a wait timed out: the loop exited and the plane settled; or, never acquired, drained for
   * good.
   */
  predicate ReleaseOk(c: Cycle, inFence: bool, running: bool) {
    c.cancelled && !c.timedOut ==>
      if c.acquired then LoopExited(c.callback) && c.fenced && !inFence
      else (c.leaving && !c.writing) || (Closed(c) && !running)
  }

  ghost predicate ReleasesOk(s: State) {
    forall k :: 0 <= k < |s.cycles| ==> ReleaseOk(s.cycles[k], InFence(s, k), s.main.Running? && k == |s.cycles| - 1)
  }

  ghost predicate Inv(s: State) { CyclesOk(s) && MutexOk(s) && EndersOk(s) && ReleasesOk(s) }

  lemma StartOk(inherited: bool)
    ensures Inv(Start(inherited))
  {}

  // ---------------------------------------------------------------- what only ever grows

  predicate FlagsGrow(c: Cycle, c': Cycle) {
    && (c.ended ==> c'.ended) && (c.leaving ==> c'.leaving) && (c.acquired ==> c'.acquired)
          && (c.registered ==> c'.registered)
    && (c.stopped ==> c'.stopped) && (c.fenced ==> c'.fenced) && (c.cancelled ==> c'.cancelled)
          && (c.early ==> c'.early)
    && (c.timedOut ==> c'.timedOut)
    && (c.leaving && !c.writing ==> !c'.writing && c'.acquired == c.acquired)
  }

  /** A cycle's flags are only ever set, its callback only moves on, and a drained lock stays as it is. */
  predicate Grows(c: Cycle, c': Cycle) { FlagsGrow(c, c') && Rank(c.callback) <= Rank(c'.callback) }

  // The callback's steps in four groups: up to the exit of its loop, its fences, its decisions, its end.

  predicate OfTerm(a: CallbackAct) {
    a.CallbackStarts? || a.Claim? || a.Register? || a.EnterLoop? || a.Apply? || a.LeaveLoop?
  }

  predicate OfFence(a: CallbackAct) { a.CallbackFence? || a.CallbackSkip? || a.CallbackFenceEnd? }

  predicate OfChoice(a: CallbackAct) { a.Judge? || a.ForcedCancel? || a.Decide? }

  predicate OfClose(a: CallbackAct) { a.HandOver? || a.TeardownDone? || a.Finish? }

  lemma CallbackGroups(a: CallbackAct)
    ensures OfTerm(a) || OfFence(a) || OfChoice(a) || OfClose(a)
  {}

  lemma TermKeepsCycle(c: Cycle, free: bool, pending: bool, a: CallbackAct)
    requires CallbackCan(c, free, pending, a) && CycleOk(c) && OfTerm(a)
    ensures CycleOk(CallbackDo(c, a))
  {}

  lemma FenceKeepsCycle(c: Cycle, free: bool, pending: bool, a: CallbackAct)
    requires CallbackCan(c, free, pending, a) && CycleOk(c) && (Holds(c) ==> !pending) && OfFence(a)
    ensures CycleOk(CallbackDo(c, a))
  {}

  lemma ChoiceKeepsCycle(c: Cycle, free: bool, pending: bool, a: CallbackAct)
    requires CallbackCan(c, free, pending, a) && CycleOk(c) && OfChoice(a)
    ensures CycleOk(CallbackDo(c, a))
  {}

  lemma CloseKeepsCycle(c: Cycle, free: bool, pending: bool, a: CallbackAct)
    requires CallbackCan(c, free, pending, a) && CycleOk(c) && OfClose(a)
    ensures CycleOk(CallbackDo(c, a))
  {}

  lemma CallbackSetsFlags(c: Cycle, a: CallbackAct)
    ensures FlagsGrow(c, CallbackDo(c, a)) && CallbackDo(c, a).writing == c.writing
  {}

  lemma TermMovesOn(c: Cycle, free: bool, pending: bool, a: CallbackAct)
    requires CallbackCan(c, free, pending, a) && OfTerm(a)
    ensures Rank(c.callback) <= Rank(CallbackDo(c, a).callback)
  {}

  lemma FenceMovesOn(c: Cycle, free: bool, pending: bool, a: CallbackAct)
    requires CallbackCan(c, free, pending, a) && OfFence(a)
    ensures Rank(c.callback) <= Rank(CallbackDo(c, a).callback)
  {}

  lemma ChoiceMovesOn(c: Cycle, free: bool, pending: bool, a: CallbackAct)
    requires CallbackCan(c, free, pending, a) && OfChoice(a)
    ensures Rank(c.callback) <= Rank(CallbackDo(c, a).callback)
  {}

  lemma CloseMovesOn(c: Cycle, free: bool, pending: bool, a: CallbackAct)
    requires CallbackCan(c, free, pending, a) && OfClose(a)
    ensures Rank(c.callback) <= Rank(CallbackDo(c, a).callback)
  {}

  lemma CallbackMovesOn(c: Cycle, free: bool, pending: bool, a: CallbackAct)
    requires CallbackCan(c, free, pending, a)
    ensures Rank(c.callback) <= Rank(CallbackDo(c, a).callback)
  {
    CallbackGroups(a);
    if OfTerm(a) { TermMovesOn(c, free, pending, a); }
    else if OfFence(a) { FenceMovesOn(c, free, pending, a); }
    else if OfChoice(a) { ChoiceMovesOn(c, free, pending, a); }
    else { CloseMovesOn(c, free, pending, a); }
  }

  lemma CallbackKeepsCycle(c: Cycle, free: bool, pending: bool, a: CallbackAct)
    requires CallbackCan(c, free, pending, a) && CycleOk(c) && (Holds(c) ==> !pending)
    ensures CycleOk(CallbackDo(c, a))
  {
    CallbackGroups(a);
    if OfTerm(a) { TermKeepsCycle(c, free, pending, a); }
    else if OfFence(a) { FenceKeepsCycle(c, free, pending, a); }
    else if OfChoice(a) { ChoiceKeepsCycle(c, free, pending, a); }
    else { CloseKeepsCycle(c, free, pending, a); }
  }

  /** One step of the callback, seen from its cycle. */
  lemma CallbackKeeps(c: Cycle, free: bool, pending: bool, a: CallbackAct)
    requires CallbackCan(c, free, pending, a) && CycleOk(c) && (Holds(c) ==> !pending)
    ensures CycleOk(CallbackDo(c, a)) && Grows(c, CallbackDo(c, a)) && CallbackDo(c, a).writing == c.writing
  {
    CallbackKeepsCycle(c, free, pending, a);
    CallbackSetsFlags(c, a);
    CallbackMovesOn(c, free, pending, a);
  }

  function HoldsAfter(holds: bool, a: CallbackAct): bool {
    if a.Claim? then true else if a.CallbackFence? || a.HandOver? then false else holds
  }

  function FencingAfter(fencing: bool, a: CallbackAct): bool {
    if a.CallbackFence? then true else if a.CallbackFenceEnd? then false else fencing
  }

  lemma CallbackShifts(c: Cycle, free: bool, pending: bool, a: CallbackAct)
    requires CallbackCan(c, free, pending, a) && CycleOk(c)
    ensures Holds(CallbackDo(c, a)) == HoldsAfter(Holds(c), a)
    ensures Fencing(CallbackDo(c, a)) == FencingAfter(Fencing(c), a)
    ensures a.Claim? || a.HandOver? || a.CallbackFence? || a.CallbackSkip? ==> free
    ensures a.Apply? || a.CallbackFence? ==> Holds(c)
    ensures a.CallbackFence? ==> !pending
    ensures a.CallbackFenceEnd? ==> Fencing(c)
    ensures a.HandOver? ==> Holds(c) == !c.fenced
    ensures a.Claim? ==> !c.fenced
  {}

  function MustAfter(must: bool, a: CallbackAct): bool {
    if a.Apply? then true else if a.CallbackFenceEnd? then false else must
  }

  lemma OwnershipMoves(holds: bool, fencing: bool, fenced: bool, mutex: Mutex, pending: bool, must: bool,
                       a: CallbackAct)
    requires Owned(holds, fencing, mutex, pending, must)
    requires a.Claim? || a.HandOver? || a.CallbackFence? ==> mutex.Free?
    requires a.Apply? || a.CallbackFence? ==> holds
    requires a.CallbackFenceEnd? ==> fencing
    requires a.HandOver? ==> holds == !fenced
    ensures Owned(HoldsAfter(holds, a), FencingAfter(fencing, a), MutexAfter(mutex, a),
            PendingAfter(pending, fenced, a), MustAfter(must, a))
  {}

  lemma CallbackOwns(c: Cycle, mutex: Mutex, pending: bool, must: bool, a: CallbackAct)
    requires CallbackCan(c, mutex.Free?, pending, a) && CycleOk(c) && OwnerOk(c, mutex, pending, must)
    ensures OwnerOk(CallbackDo(c, a), MutexAfter(mutex, a), PendingAfter(pending, c.fenced, a), MustAfter(must, a))
  {
    CallbackShifts(c, mutex.Free?, pending, a);
    OwnershipMoves(Holds(c), Fencing(c), c.fenced, mutex, pending, must, a);
  }

  lemma CallbackWaits(c: Cycle, mutex: Mutex, pending: bool, a: CallbackAct)
    requires CallbackCan(c, mutex.Free?, pending, a) && (mutex.ByCallback? <==> Fencing(c))
    ensures mutex.ByEnder? ==> MutexAfter(mutex, a) == mutex && (Blocked(c) ==> Blocked(CallbackDo(c, a)))
    ensures !mutex.ByEnder? ==> !MutexAfter(mutex, a).ByEnder?
  {}

  /** While its loop has not exited, or its fence is running, a cycle of the callback is not rightly cancelled yet. */
  lemma TermReleases(c: Cycle, free: bool, pending: bool, inFence: bool, running: bool, a: CallbackAct)
    requires CallbackCan(c, free, pending, a) && CycleOk(c) && ReleaseOk(c, inFence, running) && OfTerm(a)
    ensures ReleaseOk(CallbackDo(c, a), inFence, running)
  {}

  lemma FenceReleases(c: Cycle, free: bool, pending: bool, inFence: bool, running: bool, a: CallbackAct)
    requires CallbackCan(c, free, pending, a) && CycleOk(c) && ReleaseOk(c, inFence, running) && OfFence(a)
    ensures ReleaseOk(CallbackDo(c, a), FencingAfter(inFence, a), running)
  {}

  lemma ChoiceReleases(c: Cycle, free: bool, pending: bool, inFence: bool, running: bool, a: CallbackAct)
    requires CallbackCan(c, free, pending, a) && CycleOk(c) && ReleaseOk(c, inFence, running) && OfChoice(a)
    requires inFence ==> Fencing(c) || Blocked(c)
    ensures ReleaseOk(CallbackDo(c, a), inFence, running)
  {}

  lemma CloseReleases(c: Cycle, free: bool, pending: bool, inFence: bool, running: bool, a: CallbackAct)
    requires CallbackCan(c, free, pending, a) && CycleOk(c) && ReleaseOk(c, inFence, running) && OfClose(a)
    ensures ReleaseOk(CallbackDo(c, a), inFence, running)
  {}

  lemma CallbackReleases(c: Cycle, free: bool, pending: bool, inFence: bool, running: bool, a: CallbackAct)
    requires CallbackCan(c, free, pending, a) && CycleOk(c) && ReleaseOk(c, inFence, running)
    requires inFence ==> Fencing(c) || Blocked(c)
    ensures ReleaseOk(CallbackDo(c, a), FencingAfter(inFence, a), running)
  {
    CallbackGroups(a);
    if OfTerm(a) { TermReleases(c, free, pending, inFence, running, a); }
    else if OfFence(a) { FenceReleases(c, free, pending, inFence, running, a); }
    else if OfChoice(a) { ChoiceReleases(c, free, pending, inFence, running, a); }
    else { CloseReleases(c, free, pending, inFence, running, a); }
  }

  lemma EnderOkGrows(phase: EnderPhase, c: Cycle, c': Cycle)
    requires EnderOk(phase, c) && Grows(c, c') && (phase.EndFencing? ==> Blocked(c'))
    ensures EnderOk(phase, c')
  {}

  /** A step that puts the current cycle where `c'` is and moves neither runElection nor any endCycle call. */
  ghost predicate Placed(s: State, s': State, c': Cycle) {
    && HasCurrent(s)
    && s'.cycles == s.cycles[|s.cycles| - 1 := c'] && s'.enders == s.enders && s'.main == s.main
    && CycleOk(c') && Grows(Current(s), c') && c'.writing == Current(s).writing
  }

  ghost predicate Guarded(s: State, s': State, c': Cycle) {
    && HasCurrent(s)
    && OwnerOk(c', s'.mutex, s'.pending, Unexcused(s')) && !s'.mutex.ByMain?
    && (s.mutex.ByEnder? ==> s'.mutex == s.mutex && (Blocked(Current(s)) ==> Blocked(c')))
    && (!s.mutex.ByEnder? ==> !s'.mutex.ByEnder?)
  }

  ghost predicate Rightly(s: State, s': State, c': Cycle)
    requires |s.cycles| > 0
  {
    ReleaseOk(c', InFence(s', |s.cycles| - 1), s.main.Running?)
  }

  lemma CurrentMoved(s: State, s': State, c': Cycle)
    requires Inv(s) && Placed(s, s', c') && Guarded(s, s', c') && Rightly(s, s', c')
    ensures Inv(s')
  {
    var last := |s.cycles| - 1;
    forall i | 0 <= i < |s.enders| ensures s.enders[i].cycle <= last
        && EnderOk(s.enders[i].phase, s'.cycles[s.enders[i].cycle]) {
      if s.enders[i].cycle == last { EnderOkGrows(s.enders[i].phase, Current(s), c'); }
    }
    forall k | 0 <= k < last ensures ReleaseOk(s'.cycles[k], InFence(s', k), false) {
      assert s'.cycles[k] == s.cycles[k] && ReleaseOk(s.cycles[k], InFence(s, k), s.main.Running? && k == last);
      assert InFence(s', k) ==> InFence(s, k);
    }
  }

  /** What the callback's step needs to know of the state around its cycle. */
  ghost predicate CallbackFacts(s: State) {
    && HasCurrent(s) && CycleOk(Current(s)) && OwnerOk(Current(s), s.mutex, s.pending, Unexcused(s)) && !s.mutex.ByMain?
    && (InFence(s, |s.cycles| - 1) ==> Fencing(Current(s)) || Blocked(Current(s)))
    && ReleaseOk(Current(s), InFence(s, |s.cycles| - 1), s.main.Running?)
  }

  lemma CurrentHasFacts(s: State)
    requires Inv(s) && HasCurrent(s)
    ensures CallbackFacts(s)
  {
    FencedWhileFencing(s, |s.cycles| - 1);
  }

  lemma CallbackPlaces(s: State, a: CallbackAct)
    requires CallbackFacts(s) && HasCurrent(s) && CallbackCan(Current(s), s.mutex.Free?, s.pending, a)
    ensures Placed(s, LeadNext(s, a), CallbackDo(Current(s), a))
  {
    CallbackKeeps(Current(s), s.mutex.Free?, s.pending, a);
  }

  lemma CallbackGuards(s: State, a: CallbackAct)
    requires CallbackFacts(s) && HasCurrent(s) && CallbackCan(Current(s), s.mutex.Free?, s.pending, a)
    ensures Guarded(s, LeadNext(s, a), CallbackDo(Current(s), a))
  {
    CallbackOwns(Current(s), s.mutex, s.pending, Unexcused(s), a);
    CallbackWaits(Current(s), s.mutex, s.pending, a);
    assert !MutexAfter(s.mutex, a).ByMain?;
  }

  lemma CallbackReleasesRightly(s: State, a: CallbackAct)
    requires CallbackFacts(s) && HasCurrent(s) && CallbackCan(Current(s), s.mutex.Free?, s.pending, a)
    ensures Rightly(s, LeadNext(s, a), CallbackDo(Current(s), a))
  {
    CallbackReleases(Current(s), s.mutex.Free?, s.pending, InFence(s, |s.cycles| - 1), s.main.Running?, a);
    FenceMoves(s, a);
  }

  lemma FenceMoves(s: State, a: CallbackAct)
    requires CallbackFacts(s) && HasCurrent(s) && CallbackCan(Current(s), s.mutex.Free?, s.pending, a)
    ensures InFence(LeadNext(s, a), |s.cycles| - 1) ==> FencingAfter(InFence(s, |s.cycles| - 1), a)
  {
    CallbackWaits(Current(s), s.mutex, s.pending, a);
  }

  lemma CallbackStep(s: State, a: CallbackAct)
    requires Inv(s) && HasCurrent(s) && CallbackCan(Current(s), s.mutex.Free?, s.pending, a)
    ensures Inv(LeadNext(s, a))
  {
    CurrentHasFacts(s);
    CallbackPlaces(s, a);
    CallbackGuards(s, a);
    CallbackReleasesRightly(s, a);
    CurrentMoved(s, LeadNext(s, a), CallbackDo(Current(s), a));
  }

  lemma FencedWhileFencing(s: State, k: nat)
    requires Inv(s) && k < |s.cycles|
    ensures InFence(s, k) ==> Fencing(s.cycles[k]) || Blocked(s.cycles[k])
  {}

  // ---------------------------------------------------------------- endCycle

  lemma EnderKeepsCycle(c: Cycle, phase: EnderPhase, free: bool, pending: bool, a: EnderAct)
    requires EnderCan(c, phase, free, pending, a) && CycleOk(c) && EnderOk(phase, c)
    ensures CycleOk(EnderDo(c, a))
  {}

  lemma EnderSetsFlags(c: Cycle, a: EnderAct)
    ensures var c' := EnderDo(c, a);
            && FlagsGrow(c, c') && c'.writing == c.writing && c'.acquired == c.acquired && c'.callback == c.callback
            && c'.fenced == (c.fenced || a.EnderFence?)
  {}

  lemma EnderKeeps(c: Cycle, phase: EnderPhase, free: bool, pending: bool, a: EnderAct)
    requires EnderCan(c, phase, free, pending, a) && CycleOk(c) && EnderOk(phase, c)
    ensures CycleOk(EnderDo(c, a)) && Grows(c, EnderDo(c, a))
    ensures EnderDo(c, a).writing == c.writing && EnderDo(c, a).acquired == c.acquired
            && EnderDo(c, a).callback == c.callback
    ensures EnderDo(c, a).fenced == (c.fenced || a.EnderFence?)
  {
    EnderKeepsCycle(c, phase, free, pending, a);
    EnderSetsFlags(c, a);
  }

  lemma EnderArrives(c: Cycle, phase: EnderPhase, free: bool, pending: bool, a: EnderAct)
    requires EnderCan(c, phase, free, pending, a) && CycleOk(c) && EnderOk(phase, c)
    requires a.EnderSkip? ==> c.fenced
    ensures EnderOk(EnderMoves(c, a), EnderDo(c, a))
    ensures EnderMoves(c, a).EndFencing? <==> a.EnderFence?
    ensures phase.EndFencing? <==> a.EnderFenceEnd?
  {}

  lemma EnderReleases(c: Cycle, phase: EnderPhase, free: bool, pending: bool, inFence: bool, running: bool, a: EnderAct)
    requires EnderCan(c, phase, free, pending, a) && CycleOk(c) && EnderOk(phase, c)
    requires ReleaseOk(c, inFence, running) && (inFence ==> Fencing(c) || Blocked(c))
    ensures ReleaseOk(EnderDo(c, a), if a.EnderFence? then true else if a.EnderFenceEnd? then false
            else inFence, running)
  {}

  /** A cycle whose loop exited without a fence is the current one, and holds the plane. */
  lemma UnfencedIsCurrent(s: State, k: nat)
    requires Inv(s) && k < |s.cycles| && LoopExited(s.cycles[k].callback) && !s.cycles[k].fenced
    ensures HasCurrent(s) && k == |s.cycles| - 1 && Holds(Latest(s)) && !s.pending
  {}

  /** A step of one endCycle call: its cycle comes to `c'`, the call to `phase`. */
  ghost predicate EnderPlaced(s: State, s': State, i: nat, c': Cycle, phase: EnderPhase) {
    && i < |s.enders| && s.enders[i].cycle < |s.cycles|
    && var k := s.enders[i].cycle;
    && s'.cycles == s.cycles[k := c'] && s'.enders == s.enders[i := Ender(k, phase)] && s'.main == s.main
    && EnderSound(s.cycles[k], c', phase)
  }

  predicate EnderSound(c: Cycle, c': Cycle, phase: EnderPhase) {
    && CycleOk(c') && Grows(c, c') && c'.writing == c.writing && c'.acquired == c.acquired && c'.callback == c.callback
    && EnderOk(phase, c')
  }

  ghost predicate EnderGuarded(s: State, s': State, i: nat, phase: EnderPhase) {
    && OwnerOk(Latest(s'), s'.mutex, s'.pending, Unexcused(s')) && s'.pending == s.pending && (s'.live ==> s.live)
    && (phase.EndFencing? <==> s'.mutex == ByEnder(i))
    && (s'.mutex == s.mutex || (s.mutex.Free? && s'.mutex == ByEnder(i) && HasCurrent(s))
          || (s.mutex == ByEnder(i) && s'.mutex.Free?))
  }

  ghost predicate EnderRightly(s: State, s': State, i: nat, c': Cycle) {
    && i < |s.enders|
    && ReleaseOk(c', InFence(s', s.enders[i].cycle), s.main.Running? && s.enders[i].cycle == |s.cycles| - 1)
  }

  lemma EnderKeepsCycles(s: State, s': State, i: nat, c': Cycle, phase: EnderPhase)
    requires Inv(s) && EnderPlaced(s, s', i, c', phase)
    ensures CyclesOk(s')
  {}

  lemma EnderKeepsMutex(s: State, s': State, i: nat, c': Cycle, phase: EnderPhase)
    requires Inv(s) && EnderPlaced(s, s', i, c', phase) && EnderGuarded(s, s', i, phase)
    ensures MutexOk(s')
  {}

  lemma EnderKeepsEnders(s: State, s': State, i: nat, c': Cycle, phase: EnderPhase)
    requires Inv(s) && EnderPlaced(s, s', i, c', phase)
    ensures EndersOk(s')
  {
    forall j | 0 <= j < |s.enders| && j != i
      ensures s'.enders[j].cycle < |s'.cycles| && EnderOk(s'.enders[j].phase, s'.cycles[s'.enders[j].cycle])
    {
      var n := s.enders[j].cycle;
      assert s'.cycles[n] == if n == s.enders[i].cycle then c' else s.cycles[n];
      EnderOkGrows(s.enders[j].phase, s.cycles[n], s'.cycles[n]);
    }
  }

  lemma EnderKeepsReleases(s: State, s': State, i: nat, c': Cycle, phase: EnderPhase)
    requires Inv(s) && EnderPlaced(s, s', i, c', phase) && EnderGuarded(s, s', i, phase) && EnderRightly(s, s', i, c')
    ensures ReleasesOk(s')
  {
    forall n | 0 <= n < |s.cycles| && n != s.enders[i].cycle
        ensures ReleaseOk(s'.cycles[n], InFence(s', n), s.main.Running? && n == |s.cycles| - 1) {
      assert ReleaseOk(s.cycles[n], InFence(s, n), s.main.Running? && n == |s.cycles| - 1);
      assert InFence(s', n) ==> InFence(s, n);
    }
  }

  /** endCycle's cycle and phase, as the two functions on them take them. */
  function Ended(s: State, i: nat, a: EnderAct): Cycle
    requires EnderEnabled(s, i, a)
  {
    EnderDo(s.cycles[s.enders[i].cycle], a)
  }

  function Reached(s: State, i: nat, a: EnderAct): EnderPhase
    requires EnderEnabled(s, i, a)
  {
    EnderMoves(s.cycles[s.enders[i].cycle], a)
  }

  /** An endCycle call about to fence either finds its cycle fenced, or fences the current one. */
  lemma EnderFindsCurrent(s: State, i: nat, a: EnderAct)
    requires Inv(s) && EnderEnabled(s, i, a) && (a.EnderFence? || a.EnderSkip?)
    ensures a.EnderSkip? ==> s.cycles[s.enders[i].cycle].fenced
    ensures a.EnderFence? ==> HasCurrent(s) && s.enders[i].cycle == |s.cycles| - 1 && Holds(Latest(s))
  {
    var k := s.enders[i].cycle;
    if !s.cycles[k].fenced { UnfencedIsCurrent(s, k); }
  }

  /** What a step of an endCycle call needs to know of the state around it. */
  ghost predicate EnderFacts(s: State, i: nat, a: EnderAct)
    requires EnderEnabled(s, i, a)
  {
    var k := s.enders[i].cycle;
    var c, phase := s.cycles[k], s.enders[i].phase;
    && CycleOk(c) && EnderOk(phase, c) && OwnerOk(Latest(s), s.mutex, s.pending, Unexcused(s))
    && (phase.EndFencing? <==> s.mutex == ByEnder(i))
    && (a.EnderSkip? ==> c.fenced)
    && (a.EnderFence? ==> HasCurrent(s) && k == |s.cycles| - 1 && Holds(Latest(s)))
    && (InFence(s, k) ==> Fencing(c) || Blocked(c))
    && ReleaseOk(c, InFence(s, k), s.main.Running? && k == |s.cycles| - 1)
  }

  lemma EnderHasFacts(s: State, i: nat, a: EnderAct)
    requires Inv(s) && EnderEnabled(s, i, a)
    ensures EnderFacts(s, i, a)
  {
    FencedWhileFencing(s, s.enders[i].cycle);
    if a.EnderSkip? || a.EnderFence? { EnderFindsCurrent(s, i, a); }
  }

  lemma EnderStaysSound(c: Cycle, phase: EnderPhase, free: bool, pending: bool, a: EnderAct)
    requires EnderCan(c, phase, free, pending, a) && CycleOk(c) && EnderOk(phase, c) && (a.EnderSkip? ==> c.fenced)
    ensures EnderSound(c, EnderDo(c, a), EnderMoves(c, a))
  {
    EnderKeeps(c, phase, free, pending, a);
    EnderArrives(c, phase, free, pending, a);
  }

  lemma EnderPlaces(s: State, i: nat, a: EnderAct)
    requires EnderEnabled(s, i, a) && EnderFacts(s, i, a)
    ensures EnderPlaced(s, EndNext(s, i, a), i, Ended(s, i, a), Reached(s, i, a))
  {
    EnderStaysSound(s.cycles[s.enders[i].cycle], s.enders[i].phase, s.mutex.Free?, s.pending, a);
  }

  lemma EnderOwnership(i: nat, holds: bool, fencing: bool, mutex: Mutex, pending: bool, must: bool, a: EnderAct)
    requires Owned(holds, fencing, mutex, pending, must)
    requires a.EnderFence? ==> holds && mutex.Free?
    requires a.EnderFenceEnd? ==> mutex.ByEnder?
    ensures Owned(holds && !a.EnderFence?, fencing, MutexAfterEnder(mutex, i, a), pending, must && !a.EnderFenceEnd?)
  {}

  lemma LatestAfterEnder(s: State, i: nat, a: EnderAct)
    requires EnderEnabled(s, i, a) && EnderFacts(s, i, a)
    ensures Latest(EndNext(s, i, a)).callback == Latest(s).callback
    ensures Latest(EndNext(s, i, a)).fenced == (Latest(s).fenced || a.EnderFence?)
  {
    EnderKeeps(s.cycles[s.enders[i].cycle], s.enders[i].phase, s.mutex.Free?, s.pending, a);
  }

  lemma EnderOwns(s: State, i: nat, a: EnderAct)
    requires EnderEnabled(s, i, a) && EnderFacts(s, i, a)
    ensures var s' := EndNext(s, i, a); OwnerOk(Latest(s'), s'.mutex, s'.pending, Unexcused(s'))
  {
    EnderOwnership(i, Holds(Latest(s)), Fencing(Latest(s)), s.mutex, s.pending, Unexcused(s), a);
    LatestAfterEnder(s, i, a);
  }

  lemma EnderGuards(s: State, i: nat, a: EnderAct)
    requires EnderEnabled(s, i, a) && EnderFacts(s, i, a)
    ensures EnderGuarded(s, EndNext(s, i, a), i, Reached(s, i, a))
  {
    EnderOwns(s, i, a);
    EnderArrives(s.cycles[s.enders[i].cycle], s.enders[i].phase, s.mutex.Free?, s.pending, a);
  }

  lemma EnderReleasesRightly(s: State, i: nat, a: EnderAct)
    requires EnderEnabled(s, i, a) && EnderFacts(s, i, a)
    ensures EnderRightly(s, EndNext(s, i, a), i, Ended(s, i, a))
  {
    var k := s.enders[i].cycle;
    EnderReleases(s.cycles[k], s.enders[i].phase, s.mutex.Free?, s.pending, InFence(s, k), s.main.Running?
        && k == |s.cycles| - 1, a);
  }

  lemma EnderStep(s: State, i: nat, a: EnderAct)
    requires Inv(s) && EnderEnabled(s, i, a)
    ensures Inv(EndNext(s, i, a))
  {
    EnderHasFacts(s, i, a);
    EnderPlaces(s, i, a);
    EnderGuards(s, i, a);
    EnderReleasesRightly(s, i, a);
    EnderKeepsCycles(s, EndNext(s, i, a), i, Ended(s, i, a), Reached(s, i, a));
    EnderKeepsMutex(s, EndNext(s, i, a), i, Ended(s, i, a), Reached(s, i, a));
    EnderKeepsEnders(s, EndNext(s, i, a), i, Ended(s, i, a), Reached(s, i, a));
    EnderKeepsReleases(s, EndNext(s, i, a), i, Ended(s, i, a), Reached(s, i, a));
  }

  // ---------------------------------------------------------------- runElection's own steps and kept-plane fences

  lemma BeginKeepsCycles(s: State)
    requires Inv(s) && s.main.Gate?
    ensures CyclesOk(Next(s, Begin))
  {}

  /** Between cycles the callback holds and fences nothing. */
  lemma ClosedOwnsNothing(c: Cycle)
    requires CycleOk(c) && Closed(c)
    ensures !Holds(c) && !Fencing(c)
  {}

  lemma BeginKeepsMutex(s: State)
    requires Inv(s) && s.main.Gate?
    ensures MutexOk(Next(s, Begin))
  {
    ClosedOwnsNothing(Latest(s));
  }

  lemma BeginStep(s: State)
    requires Inv(s) && s.main.Gate?
    ensures Inv(Next(s, Begin))
  {
    BeginKeepsCycles(s);
    BeginKeepsMutex(s);
  }

  /** A drained lock is never written: a cancelled cycle without the Lease stays without it. */
  lemma WriteStep(s: State, a: Action)
    requires Inv(s) && Enabled(s, a) && (a.BeginWrite? || a.EndWrite?)
    ensures Inv(Next(s, a))
  {
    var s', last := Next(s, a), |s.cycles| - 1;
    forall i | 0 <= i < |s.enders| ensures EnderOk(s.enders[i].phase, s'.cycles[s.enders[i].cycle]) {
      if s.enders[i].cycle == last { EnderOkGrows(s.enders[i].phase, Current(s), Current(s')); }
    }
  }

  lemma TurnStep(s: State, a: Action)
    requires Inv(s) && Enabled(s, a) && (a.RunReturns? || a.Leave?)
    ensures Inv(Next(s, a))
  {}

  lemma CallStep(s: State, k: nat)
    requires Inv(s) && k < |s.cycles|
    ensures Inv(Next(s, Call(k)))
  {}

  lemma JoinKeepsCycles(s: State, a: Action)
    requires Inv(s) && Enabled(s, a) && a.Join?
    ensures CyclesOk(Next(s, a)) && MutexOk(Next(s, a))
  {}

  lemma JoinKeepsEnders(s: State, a: Action)
    requires Inv(s) && Enabled(s, a) && a.Join?
    ensures EndersOk(Next(s, a))
  {
    var s', last := Next(s, a), |s.cycles| - 1;
    forall i | 0 <= i < |s.enders| ensures EnderOk(s.enders[i].phase, s'.cycles[s.enders[i].cycle]) {
      if s.enders[i].cycle == last { EnderOkGrows(s.enders[i].phase, Current(s), Current(s')); }
    }
  }

  lemma JoinKeepsReleases(s: State, a: Action)
    requires Inv(s) && Enabled(s, a) && a.Join?
    ensures ReleasesOk(Next(s, a))
  {
    var s', last := Next(s, a), |s.cycles| - 1;
    FencedWhileFencing(s, last);
    forall k | 0 <= k < |s.cycles| ensures ReleaseOk(s'.cycles[k], InFence(s', k), false) {
      assert InFence(s', k) ==> InFence(s, k);
      assert ReleaseOk(s.cycles[k], InFence(s, k), s.main.Running? && k == last);
    }
  }

  lemma JoinStep(s: State, a: Action)
    requires Inv(s) && Enabled(s, a) && a.Join?
    ensures Inv(Next(s, a))
  {
    JoinKeepsCycles(s, a);
    JoinKeepsEnders(s, a);
    JoinKeepsReleases(s, a);
  }

  lemma KeptStep(s: State, a: Action)
    requires Inv(s) && Enabled(s, a) && (a.ExitFence? || a.ExitFenceEnd? || a.ExitSkip? || a.KeptFence?
             || a.KeptFenceEnd?)
    ensures Inv(Next(s, a))
  {}

  lemma InvKept(s: State, a: Action)
    requires Inv(s) && Enabled(s, a)
    ensures Inv(Next(s, a))
  {
    match a
    case Begin => BeginStep(s);
    case BeginWrite => WriteStep(s, a);
    case EndWrite(_) => WriteStep(s, a);
    case RunReturns => TurnStep(s, a);
    case Leave => TurnStep(s, a);
    case Call(k) => CallStep(s, k);
    case Join(_) => JoinStep(s, a);
    case Lead(act) => CallbackStep(s, act);
    case End(i, step) => EnderStep(s, i, step);
    case ExitFence => KeptStep(s, a);
    case ExitFenceEnd(_) => KeptStep(s, a);
    case ExitSkip => KeptStep(s, a);
    case KeptFence => KeptStep(s, a);
    case KeptFenceEnd(_) => KeptStep(s, a);
  }

  // ---------------------------------------------------------------- runs

  ghost predicate IsRun(states: seq<State>, actions: seq<Action>) {
    && |states| == |actions| + 1 && (states[0] == Start(false) || states[0] == Start(true))
    && (forall i :: 0 <= i < |actions| ==>
          Enabled(states[i], actions[i]) && states[i + 1] == Next(states[i], actions[i]))
  }

  lemma {:induction false} RunKeepsInv(states: seq<State>, actions: seq<Action>, i: nat)
    requires IsRun(states, actions) && i < |states|
    ensures Inv(states[i])
  {
    if i == 0 {
      StartOk(false);
      StartOk(true);
    } else {
      RunKeepsInv(states, actions, i - 1);
      InvKept(states[i - 1], actions[i - 1]);
    }
  }

  lemma LeadGrows(s: State, a: CallbackAct, k: nat)
    requires CallbackFacts(s) && CallbackCan(Current(s), s.mutex.Free?, s.pending, a) && k < |s.cycles|
    ensures |LeadNext(s, a).cycles| == |s.cycles| && Grows(s.cycles[k], LeadNext(s, a).cycles[k])
  {
    CallbackKeeps(Current(s), s.mutex.Free?, s.pending, a);
  }

  lemma EndGrows(s: State, i: nat, a: EnderAct, k: nat)
    requires EnderEnabled(s, i, a) && EnderFacts(s, i, a) && k < |s.cycles|
    ensures |EndNext(s, i, a).cycles| == |s.cycles| && Grows(s.cycles[k], EndNext(s, i, a).cycles[k])
  {
    EnderKeeps(s.cycles[s.enders[i].cycle], s.enders[i].phase, s.mutex.Free?, s.pending, a);
  }

  lemma MainGrows(s: State, a: Action, k: nat)
    requires Enabled(s, a) && !a.Lead? && !a.End? && k < |s.cycles|
    ensures k < |Next(s, a).cycles| && Grows(s.cycles[k], Next(s, a).cycles[k])
  {}

  lemma StepGrows(s: State, a: Action, k: nat)
    requires Inv(s) && Enabled(s, a) && k < |s.cycles|
    ensures k < |Next(s, a).cycles| && Grows(s.cycles[k], Next(s, a).cycles[k])
  {
    match a
    case Lead(act) =>
      CurrentHasFacts(s);
      LeadGrows(s, act, k);
    case End(i, step) =>
      EnderHasFacts(s, i, step);
      EndGrows(s, i, step, k);
    case _ => MainGrows(s, a, k);
  }

  lemma {:induction false} RunGrows(states: seq<State>, actions: seq<Action>, i: nat, j: nat, k: nat)
    requires IsRun(states, actions) && i <= j < |states| && k < |states[i].cycles|
    ensures k < |states[j].cycles| && Grows(states[i].cycles[k], states[j].cycles[k])
  {
    if i < j {
      RunGrows(states, actions, i, j - 1, k);
      RunKeepsInv(states, actions, j - 1);
      StepGrows(states[j - 1], actions[j - 1], k);
    }
  }

  /** A teardown of cycle k begins, or its plane is handed to the kept-plane flag. */
  predicate Settles(s: State, a: Action, k: nat) {
    match a
    case Lead(act) => k + 1 == |s.cycles| && (act.CallbackFence? || (act.HandOver? && !s.cycles[k].fenced))
    case End(i, step) => step.EnderFence? && i < |s.enders| && s.enders[i].cycle == k
    case _ => false
  }

  lemma LeadSettles(s: State, a: CallbackAct, k: nat)
    requires HasCurrent(s) && CallbackCan(Current(s), s.mutex.Free?, s.pending, a) && k < |s.cycles|
    ensures Settles(s, Lead(a), k) ==> !s.cycles[k].fenced
    ensures LeadNext(s, a).cycles[k].fenced <==> s.cycles[k].fenced || Settles(s, Lead(a), k)
  {}

  lemma EndSettles(s: State, i: nat, a: EnderAct, k: nat)
    requires EnderEnabled(s, i, a) && k < |s.cycles|
    ensures Settles(s, End(i, a), k) ==> !s.cycles[k].fenced
    ensures EndNext(s, i, a).cycles[k].fenced <==> s.cycles[k].fenced || Settles(s, End(i, a), k)
  {}

  lemma SettlesOnce(s: State, a: Action, k: nat)
    requires Enabled(s, a) && k < |s.cycles|
    ensures Settles(s, a, k) ==> !s.cycles[k].fenced
    ensures k < |Next(s, a).cycles| && (Next(s, a).cycles[k].fenced <==> s.cycles[k].fenced || Settles(s, a, k))
  {
    match a
    case Lead(act) => LeadSettles(s, act, k);
    case End(i, step) => EndSettles(s, i, step, k);
    case _ =>
  }

  /** No apply of a cycle runs once its plane was fenced or handed over, in whatever order the goroutines run. */
  lemma NoApplyAfterFence(states: seq<State>, actions: seq<Action>, i: nat, j: nat, k: nat)
    requires IsRun(states, actions) && i < j < |actions| && k < |states[i].cycles| && Settles(states[i], actions[i], k)
    ensures !(actions[j] == Lead(Apply) && k == |states[j].cycles| - 1)
  {
    SettlesOnce(states[i], actions[i], k);
    RunGrows(states, actions, i + 1, j, k);
    FencedNeverApplies(states, actions, j, k);
  }

  lemma FencedNeverApplies(states: seq<State>, actions: seq<Action>, j: nat, k: nat)
    requires IsRun(states, actions) && j < |actions| && k < |states[j].cycles| && states[j].cycles[k].fenced
    ensures !(actions[j] == Lead(Apply) && k == |states[j].cycles| - 1)
  {
    RunKeepsInv(states, actions, j);
    FencedHasLeft(states[j], k);
  }

  lemma FencedHasLeft(s: State, k: nat)
    requires Inv(s) && k < |s.cycles| && s.cycles[k].fenced
    ensures LoopExited(s.cycles[k].callback)
  {}

  /** A cycle ended before its reload loop registered never applies anything. */
  lemma EndedEarlyNeverApplies(states: seq<State>, actions: seq<Action>, i: nat, j: nat, k: nat)
    requires IsRun(states, actions) && i <= j < |actions| && k < |states[i].cycles| && states[i].cycles[k].early
    ensures !(actions[j] == Lead(Apply) && k == |states[j].cycles| - 1)
  {
    RunGrows(states, actions, i, j, k);
    RunKeepsInv(states, actions, j);
  }

  /**
   * Unless an endCycle call gave up on this very cycle with its write in flight or its loop unregistered: an acquired
   * cycle's elector context is cancelled only when its reload loop has exited and its plane is fenced, with that fence
   * over, or handed to the kept-plane flag.
   */
  lemma ReleasedBehindTheFence(states: seq<State>, actions: seq<Action>, i: nat, k: nat)
    requires IsRun(states, actions) && i < |states| && k < |states[i].cycles|
    requires states[i].cycles[k].cancelled && states[i].cycles[k].acquired && !states[i].cycles[k].timedOut
    ensures LoopExited(states[i].cycles[k].callback) && states[i].cycles[k].fenced && !InFence(states[i], k)
  {
    RunKeepsInv(states, actions, i);
    assert ReleaseOk(states[i].cycles[k], InFence(states[i], k), states[i].main.Running?
        && k == |states[i].cycles| - 1);
  }

  /** The order is broken: the elector of an acquired cycle is cancelled before its loop exited. */
  predicate LetGoEarly(c: Cycle) { c.cancelled && c.acquired && !LoopExited(c.callback) }

  /**
   * A wait for the loop to register that expires before it does always leads there: wherever it happens, the cancel is
   * the next thing the call can do.
   */
  lemma UnregisteredTimeoutBreaksOrder(s: State, i: nat)
    requires Inv(s) && EnderEnabled(s, i, RegisterTimeout) && !s.cycles[s.enders[i].cycle].registered
    ensures var k, s1 := s.enders[i].cycle, EndNext(s, i, RegisterTimeout);
            s1.cycles[k].timedOut && EnderEnabled(s1, i, Cancel) && LetGoEarly(EndNext(s1, i, Cancel).cycles[k])
  {}

  /** A write still in flight is the current cycle's, inside Run, and has acquired nothing yet. */
  lemma WritingIsRunning(s: State, k: nat)
    requires Inv(s) && k < |s.cycles| && s.cycles[k].writing
    ensures s.main.Running? && HasCurrent(s) && k == |s.cycles| - 1 && !s.cycles[k].acquired
            && s.cycles[k].callback.Idle?
  {}

  /** The call finds nothing acquired and goes on to cancel. */
  lemma DrainTimeoutGoesOn(s: State, i: nat)
    requires Inv(s) && EnderEnabled(s, i, DrainTimeout) && s.cycles[s.enders[i].cycle].writing
    ensures var k, s1 := s.enders[i].cycle, EndNext(s, i, DrainTimeout);
            && s1.cycles[k] == s.cycles[k].(timedOut := true) && EnderEnabled(s1, i, CheckAcquired)
            && var s2 := EndNext(s1, i, CheckAcquired);
            && s2.enders[i] == Ender(k, Cancelling) && s2.cycles[k] == s1.cycles[k] && |s2.cycles| == |s.cycles|
                 && s2.main == s.main
  {
    WritingIsRunning(s, s.enders[i].cycle);
  }

  lemma LateWriteBreaksOrder(s: State, i: nat, k: nat)
    requires s.main.Running? && k == |s.cycles| - 1 && i < |s.enders| && s.enders[i] == Ender(k, Cancelling)
    requires s.cycles[k].writing && !LoopExited(s.cycles[k].callback)
    ensures Enabled(s, EndWrite(true))
    ensures var s3 := Next(s, EndWrite(true));
            EnderEnabled(s3, i, Cancel) && LetGoEarly(EndNext(s3, i, Cancel).cycles[k])
  {}

  /** A drain that expires with a write in flight leads there whenever that write succeeds. */
  lemma UndrainedTimeoutBreaksOrder(s: State, i: nat)
    requires Inv(s) && EnderEnabled(s, i, DrainTimeout) && s.cycles[s.enders[i].cycle].writing
    ensures var k, s2 := s.enders[i].cycle, EndNext(EndNext(s, i, DrainTimeout), i, CheckAcquired);
            && Enabled(s2, EndWrite(true))
            && var s3 := Next(s2, EndWrite(true));
            s2.cycles[k].timedOut && EnderEnabled(s3, i, Cancel) && LetGoEarly(EndNext(s3, i, Cancel).cycles[k])
  {
    WritingIsRunning(s, s.enders[i].cycle);
    DrainTimeoutGoesOn(s, i);
    LateWriteBreaksOrder(EndNext(EndNext(s, i, DrainTimeout), i, CheckAcquired), i, s.enders[i].cycle);
  }

  /** The flag, the leading cycle or a running fence answers for the plane. */
  predicate HasOwner(s: State) { s.pending || Holds(Latest(s)) || !s.mutex.Free? }

  /**
   * Never two parties are responsible for the plane, and a live one has one unless the last fence came back incomplete.
   */
  lemma SingleOwner(states: seq<State>, actions: seq<Action>, i: nat)
    requires IsRun(states, actions) && i < |states|
    ensures var s := states[i];
            && (s.live ==> HasOwner(s) || s.incomplete)
            && !(s.pending && Holds(Latest(s))) && !(s.pending && !s.mutex.Free?)
                 && !(Holds(Latest(s)) && !s.mutex.Free?)
            && (forall k :: 0 <= k < |s.cycles| - 1 ==> !Holds(s.cycles[k]))
  {
    RunKeepsInv(states, actions, i);
  }

  /** A fence ends with this result. */
  predicate FenceEnds(a: Action, ok: bool) {
    match a
    case Lead(act) => act == CallbackFenceEnd(ok)
    case End(_, step) => step == EnderFenceEnd(ok)
    case ExitFenceEnd(r) => r == ok
    case KeptFenceEnd(r) => r == ok
    case _ => false
  }

  lemma LeadKeepsOwner(s: State, a: CallbackAct)
    requires CallbackFacts(s) && CallbackCan(Current(s), s.mutex.Free?, s.pending, a)
    ensures HasOwner(LeadNext(s, a)) <==> a.Claim? || (HasOwner(s) && !a.CallbackFenceEnd?)
  {
    CallbackShifts(Current(s), s.mutex.Free?, s.pending, a);
  }

  lemma EndKeepsOwner(s: State, i: nat, a: EnderAct)
    requires EnderEnabled(s, i, a) && EnderFacts(s, i, a)
    ensures HasOwner(EndNext(s, i, a)) <==> HasOwner(s) && !a.EnderFenceEnd?
  {
    LatestAfterEnder(s, i, a);
  }

  lemma MainKeepsOwner(s: State, a: Action)
    requires Inv(s) && Enabled(s, a) && !a.Lead? && !a.End?
    ensures HasOwner(Next(s, a)) <==> HasOwner(s) && !a.ExitFenceEnd? && !a.KeptFenceEnd?
  {
    if a.Begin? { ClosedOwnsNothing(Latest(s)); }
  }

  /** What a step means for the plane and its owner. */
  datatype Turn = Claims | Applies | Fails | Completes | Other

  function TurnOf(a: Action): Turn {
    if a == Lead(Claim) then Claims
    else if a == Lead(Apply) then Applies
    else if FenceEnds(a, false) then Fails
    else if FenceEnds(a, true) then Completes
    else Other
  }

  predicate OwnerAfter(owner: bool, t: Turn) { t.Claims? || (owner && !t.Fails? && !t.Completes?) }

  lemma TurnOfLead(a: CallbackAct)
    ensures forall owner :: OwnerAfter(owner, TurnOf(Lead(a))) <==> a.Claim? || (owner && !a.CallbackFenceEnd?)
  {}

  lemma TurnOfEnd(i: nat, a: EnderAct)
    ensures forall owner :: OwnerAfter(owner, TurnOf(End(i, a))) <==> owner && !a.EnderFenceEnd?
  {}

  lemma TurnOfMain(a: Action)
    requires !a.Lead? && !a.End?
    ensures forall owner :: OwnerAfter(owner, TurnOf(a)) <==> owner && !a.ExitFenceEnd? && !a.KeptFenceEnd?
  {}

  lemma LeadOwnerStep(s: State, a: CallbackAct)
    requires Inv(s) && HasCurrent(s) && CallbackCan(Current(s), s.mutex.Free?, s.pending, a)
    ensures HasOwner(LeadNext(s, a)) <==> OwnerAfter(HasOwner(s), TurnOf(Lead(a)))
  {
    CurrentHasFacts(s);
    LeadKeepsOwner(s, a);
    TurnOfLead(a);
  }

  lemma EndOwnerStep(s: State, i: nat, a: EnderAct)
    requires Inv(s) && EnderEnabled(s, i, a)
    ensures HasOwner(EndNext(s, i, a)) <==> OwnerAfter(HasOwner(s), TurnOf(End(i, a)))
  {
    EnderHasFacts(s, i, a);
    EndKeepsOwner(s, i, a);
    TurnOfEnd(i, a);
  }

  lemma MainOwnerStep(s: State, a: Action)
    requires Inv(s) && Enabled(s, a) && !a.Lead? && !a.End?
    ensures HasOwner(Next(s, a)) <==> OwnerAfter(HasOwner(s), TurnOf(a))
  {
    MainKeepsOwner(s, a);
    TurnOfMain(a);
  }

  /** A plane gets an owner by a claim alone, and loses it when a fence ends, however it ends. */
  lemma OwnerStep(s: State, a: Action)
    requires Inv(s) && Enabled(s, a)
    ensures HasOwner(Next(s, a)) <==> OwnerAfter(HasOwner(s), TurnOf(a))
  {
    match a
    case Lead(act) => LeadOwnerStep(s, act);
    case End(i, step) => EndOwnerStep(s, i, step);
    case _ => MainOwnerStep(s, a);
  }

  /** An apply makes the plane live, by a cycle that owns it; a complete fence alone takes it away. */
  lemma LiveStep(s: State, a: Action)
    requires Enabled(s, a)
    ensures Next(s, a).live <==> TurnOf(a).Applies? || (s.live && !TurnOf(a).Completes?)
  {}

  /** Only an owner applies, and a fence that ends was the owner till then. */
  lemma OwnersAct(s: State, a: Action)
    requires Inv(s) && Enabled(s, a) && (TurnOf(a).Applies? || TurnOf(a).Fails? || TurnOf(a).Completes?)
    ensures HasOwner(s)
  {}

  /** Owner and plane through a run, and nothing else of it. */
  ghost predicate OwnerHistory(owner: seq<bool>, live: seq<bool>, turns: seq<Turn>) {
    && |owner| == |live| == |turns| + 1 && owner[0] == live[0]
    && (forall i :: 0 <= i < |turns| ==>
          && (owner[i + 1] <==> OwnerAfter(owner[i], turns[i]))
          && (live[i + 1] <==> turns[i].Applies? || (live[i] && !turns[i].Completes?))
          && (turns[i].Applies? || turns[i].Fails? || turns[i].Completes? ==> owner[i]))
  }

  /** Step j ended a fence of a live plane incompletely, and no cycle has claimed the plane since. */
  ghost predicate Abandoned(live: seq<bool>, turns: seq<Turn>, j: nat, i: nat)
    requires j < i <= |turns| && |live| == |turns| + 1
  {
    turns[j].Fails? && live[j] && forall m :: j < m < i ==> !turns[m].Claims?
  }

  lemma {:induction false} OwnerlessWasAbandoned(owner: seq<bool>, live: seq<bool>, turns: seq<Turn>,
                                                i: nat) returns (j: nat)
    requires OwnerHistory(owner, live, turns) && i < |live| && live[i] && !owner[i]
    ensures j < i && Abandoned(live, turns, j, i)
  {
    if turns[i - 1].Fails? {
      j := i - 1;
    } else {
      j := OwnerlessWasAbandoned(owner, live, turns, i - 1);
    }
  }

  lemma {:induction false} AbandonedStaysOwnerless(owner: seq<bool>, live: seq<bool>, turns: seq<Turn>, j: nat, i: nat)
    requires OwnerHistory(owner, live, turns) && j < i < |live| && Abandoned(live, turns, j, i)
    ensures live[i] && !owner[i]
  {
    if j < i - 1 { AbandonedStaysOwnerless(owner, live, turns, j, i - 1); }
  }

  ghost function OwnersOf(states: seq<State>): (r: seq<bool>)
    ensures |r| == |states| && forall i :: 0 <= i < |states| ==> r[i] == HasOwner(states[i])
  {
    seq(|states|, i requires 0 <= i < |states| => HasOwner(states[i]))
  }

  ghost function LiveOf(states: seq<State>): (r: seq<bool>)
    ensures |r| == |states| && forall i :: 0 <= i < |states| ==> r[i] == states[i].live
  {
    seq(|states|, i requires 0 <= i < |states| => states[i].live)
  }

  ghost function TurnsOf(actions: seq<Action>): (r: seq<Turn>)
    ensures |r| == |actions| && forall i :: 0 <= i < |actions| ==> r[i] == TurnOf(actions[i])
  {
    seq(|actions|, i requires 0 <= i < |actions| => TurnOf(actions[i]))
  }

  lemma StepHasHistory(s: State, a: Action)
    requires Inv(s) && Enabled(s, a)
    ensures HasOwner(Next(s, a)) <==> OwnerAfter(HasOwner(s), TurnOf(a))
    ensures Next(s, a).live <==> TurnOf(a).Applies? || (s.live && !TurnOf(a).Completes?)
    ensures TurnOf(a).Applies? || TurnOf(a).Fails? || TurnOf(a).Completes? ==> HasOwner(s)
  {
    OwnerStep(s, a);
    LiveStep(s, a);
    if TurnOf(a).Applies? || TurnOf(a).Fails? || TurnOf(a).Completes? { OwnersAct(s, a); }
  }

  lemma RunHasHistory(states: seq<State>, actions: seq<Action>)
    requires IsRun(states, actions)
    ensures OwnerHistory(OwnersOf(states), LiveOf(states), TurnsOf(actions))
  {
    var owner, live, turns := OwnersOf(states), LiveOf(states), TurnsOf(actions);
    forall i | 0 <= i < |turns|
      ensures owner[i + 1] <==> OwnerAfter(owner[i], turns[i])
      ensures live[i + 1] <==> turns[i].Applies? || (live[i] && !turns[i].Completes?)
      ensures turns[i].Applies? || turns[i].Fails? || turns[i].Completes? ==> owner[i]
    {
      RunKeepsInv(states, actions, i);
      StepHasHistory(states[i], actions[i]);
    }
  }

  /**
   * Exactly when a live plane is without owner: some step ended a fence of a live plane incompletely, and no cycle has
   * claimed the plane since.
   */
  lemma OwnerlessIff(states: seq<State>, actions: seq<Action>, i: nat)
    requires IsRun(states, actions) && i < |states|
    ensures states[i].live && !HasOwner(states[i]) <==>
            exists j :: 0 <= j < i && FenceEnds(actions[j], false) && states[j].live
                        && forall m :: j < m < i ==> actions[m] != Lead(Claim)
  {
    var owner, live, turns := OwnersOf(states), LiveOf(states), TurnsOf(actions);
    RunHasHistory(states, actions);
    if live[i] && !owner[i] {
      var j := OwnerlessWasAbandoned(owner, live, turns, i);
      NoClaims(actions, j, i);
      assert FenceEnds(actions[j], false) && states[j].live;
    }
    if j :| 0 <= j < i && FenceEnds(actions[j], false) && states[j].live
            && forall m :: j < m < i ==> actions[m] != Lead(Claim) {
      NoClaims(actions, j, i);
      AbandonedStaysOwnerless(owner, live, turns, j, i);
    }
  }

  lemma NoClaims(actions: seq<Action>, j: nat, i: nat)
    requires i <= |actions|
    ensures (forall m :: j < m < i ==> actions[m] != Lead(Claim)) <==>
            (forall m :: j < m < i ==> !TurnsOf(actions)[m].Claims?)
  {
    var turns := TurnsOf(actions);
    assert forall m :: j < m < i ==> turns[m] == TurnOf(actions[m]);
  }

  /** And it does happen: an inherited plane whose exit fence fails stays on the node when runElection has returned. */
  lemma FailedExitFenceOrphans() returns (states: seq<State>, actions: seq<Action>)
    ensures IsRun(states, actions) && var s := states[|states| - 1]; s.main.Returned? && s.live && !HasOwner(s)
  {
    var s0 := Start(true);
    var s1 := Next(s0, Leave);
    var s2 := Next(s1, ExitFence);
    states, actions := [s0, s1, s2, Next(s2, ExitFenceEnd(false))], [Leave, ExitFence, ExitFenceEnd(false)];
  }

  /**
   * After runElection returned nobody owns a plane, and one is left behind only where the last fence came back
   * incomplete.
   */
  lemma ReturnedOwnsNothing(states: seq<State>, actions: seq<Action>, i: nat)
    requires IsRun(states, actions) && i < |states| && states[i].main.Returned?
    ensures var s := states[i]; !HasOwner(s) && (s.live ==> s.incomplete) && forall k :: 0 <= k < |s.cycles| ==>
            !Holds(s.cycles[k])
  {
    RunKeepsInv(states, actions, i);
  }

  lemma FencedStep(states: seq<State>, actions: seq<Action>, j: nat, k: nat)
    requires IsRun(states, actions) && j < |actions| && k < |states[j].cycles|
    ensures k < |states[j + 1].cycles| && (states[j + 1].cycles[k].fenced <==>
            states[j].cycles[k].fenced || Settles(states[j], actions[j], k))
  {
    SettlesOnce(states[j], actions[j], k);
  }

  lemma {:induction false} FirstFlip(b: seq<bool>, i: nat, j: nat) returns (m: nat)
    requires i <= j < |b| && !b[i] && b[j]
    ensures i <= m < j && !b[m] && b[m + 1]
    decreases j - i
  {
    if b[i + 1] {
      m := i;
    } else {
      m := FirstFlip(b, i + 1, j);
    }
  }

  lemma SettlingMoment(states: seq<State>, actions: seq<Action>, i: nat, j: nat, k: nat) returns (m: nat)
    requires IsRun(states, actions) && i <= j < |states| && k < |states[i].cycles| && !states[i].cycles[k].fenced
    requires k < |states[j].cycles| && states[j].cycles[k].fenced
    ensures i <= m < j && k < |states[m].cycles| && Settles(states[m], actions[m], k)
  {
    m := FirstFlip(seq(|states|, n requires 0 <= n < |states| => k < |states[n].cycles| && states[n].cycles[k].fenced),
        i, j);
    RunGrows(states, actions, i, m, k);
    FencedStep(states, actions, m, k);
  }

  /** Every led cycle ends by exactly one teardown or one hand-over: at least one once it finished, never two. */
  lemma SettledExactlyOnce(states: seq<State>, actions: seq<Action>, i: nat, j: nat, k: nat) returns (m: nat)
    requires IsRun(states, actions) && i < j < |states| && actions[i] == Lead(Claim) && k == |states[i].cycles| - 1
    requires k < |states[j].cycles| && states[j].cycles[k].callback.Finished?
    ensures i < m < j && k < |states[m].cycles| && Settles(states[m], actions[m], k)
    ensures forall n :: 0 <= n < j && n != m && k < |states[n].cycles| ==> !Settles(states[n], actions[n], k)
  {
    ClaimedUnfenced(states, actions, i);
    RunKeepsInv(states, actions, j);
    FinishedIsFenced(states[j], k);
    m := SettlingMoment(states, actions, i + 1, j, k);
    forall n | 0 <= n < j && n != m && k < |states[n].cycles| ensures !Settles(states[n], actions[n], k) {
      if n < m { NeverTwice(states, actions, n, m, k); } else { NeverTwice(states, actions, m, n, k); }
    }
  }

  lemma FinishedIsFenced(s: State, k: nat)
    requires Inv(s) && k < |s.cycles| && s.cycles[k].callback.Finished?
    ensures s.cycles[k].fenced
  {}

  lemma NeverTwice(states: seq<State>, actions: seq<Action>, m: nat, n: nat, k: nat)
    requires IsRun(states, actions) && m < n < |actions| && k < |states[m].cycles|
    ensures k < |states[n].cycles| && !(Settles(states[m], actions[m], k) && Settles(states[n], actions[n], k))
  {
    SettlesOnce(states[m], actions[m], k);
    RunGrows(states, actions, m + 1, n, k);
    SettlesOnce(states[n], actions[n], k);
  }

  /** From a claim on, no kept-plane fence begins until the claiming cycle has been fenced or handed over. */
  lemma NoKeptFenceDuringTerm(states: seq<State>, actions: seq<Action>, i: nat, j: nat) returns (m: nat)
    requires IsRun(states, actions) && i < j < |actions| && actions[i] == Lead(Claim)
             && (actions[j].KeptFence? || actions[j].ExitFence?)
    ensures i < m < j && |states[i].cycles| > 0 && Settles(states[m], actions[m], |states[i].cycles| - 1)
  {
    var k := |states[i].cycles| - 1;
    ClaimedUnfenced(states, actions, i);
    RunGrows(states, actions, i + 1, j, k);
    KeptFenceFindsSettled(states, actions, j, k);
    m := SettlingMoment(states, actions, i + 1, j, k);
  }

  lemma ClaimedUnfenced(states: seq<State>, actions: seq<Action>, i: nat)
    requires IsRun(states, actions) && i < |actions| && actions[i] == Lead(Claim)
    ensures var k := |states[i].cycles| - 1;
            0 <= k < |states[i + 1].cycles| && !states[i + 1].cycles[k].fenced
                && Rank(states[i + 1].cycles[k].callback) == 2
  {
    RunKeepsInv(states, actions, i);
    StartingIsUnfenced(states[i]);
  }

  lemma StartingIsUnfenced(s: State)
    requires Inv(s) && HasCurrent(s) && Current(s).callback.Starting?
    ensures !Current(s).fenced
  {}

  lemma KeptFenceFindsSettled(states: seq<State>, actions: seq<Action>, j: nat, k: nat)
    requires IsRun(states, actions) && j < |actions| && (actions[j].KeptFence? || actions[j].ExitFence?)
    requires k < |states[j].cycles| && Rank(states[j].cycles[k].callback) >= 2
    ensures states[j].cycles[k].fenced
  {
    RunKeepsInv(states, actions, j);
    PendingMeansSettled(states[j], k);
  }

  /** While the kept-plane flag is set, every cycle that claimed a plane has been settled. */
  lemma PendingMeansSettled(s: State, k: nat)
    requires Inv(s) && s.pending && k < |s.cycles| && Rank(s.cycles[k].callback) >= 2
    ensures s.cycles[k].fenced
  {}
}
