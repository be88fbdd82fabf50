/**
 Who may use the RTL-SDR dongle (pi/sdr_controller.py).

 One mutex serialises the dongle.  A one-shot capture takes it for one run, the
 live console for its whole lifetime, and `stop` for an instant, as a barrier.  A
 second mutex (`admin`) serialises the start and the clean-up of the live console,
 and a reaper decides to clean up before it holds that second mutex.

 Every access to a shared variable is one atomic step of one thread, so a sequence
 of events is an arbitrary interleaving of any number of threads.  `lock` records
 who took the mutex; the program only has a locked bit, and `fault` is raised as
 soon as a thread releases a mutex that it does not hold.
 */
module Dongle {
  import opened Options

  /** A child process: `Doomed` has been sent SIGKILL but has not exited yet. */
  datatype Proc = Running | Doomed | Exited

  datatype Holder = Capture(t: nat) | Live | Barrier(t: nat)

  datatype Mode = Off | CaptureMode | LiveMode

  /** Why the clean-up runs, which is also where control goes afterwards. */
  datatype Why = Stopping | Reaping(seen: nat) | DeadFirst | DeadSecond | Failed

  /** How a thread leaves the `admin` section. */
  datatype Exit = Started | Busy | Stopped | Reaped | Raised

  datatype CapturePc =
    | CapTry | CapMark | CapSpawn | CapRecord(p: nat) | CapWait(p: nat) | CapDrain(p: nat)
    | CapForget | CapUnmark | CapRelease

  datatype StartPc =
    | LiveAdmin | LiveTry | LiveOwn | LiveBuild | LiveSpawn(second: bool) | LiveRecord(p: nat, second: bool)
    | LiveMark(second: bool) | LiveProbe(second: bool) | LiveUsbReset | LiveRetry | LiveReown

  datatype CleanupPc =
    | ClnRead | ClnPoll(proc: Option<nat>) | ClnWait(p: nat) | ClnForget | ClnUnmark | ClnOwn | ClnRelease

  datatype ReapPc =
    | StopLiveAdmin | ReapRead | ReapOwns(proc: Option<nat>) | ReapPoll(proc: Option<nat>) | ReapAdmin(seen: nat)

  datatype StopPc = StopRead | StopPoll(proc: Option<nat>) | StopWait(p: nat) | StopOwns | StopTry | StopRelease

  /** Where a thread is: in a one-shot run, starting the live console, cleaning up
      inside the admin section, leaving that section, reaping, or stopping a run. */
  datatype Pc =
    | Idle
    | Capturing(capture: CapturePc)
    | Starting(start: StartPc)
    | Cleaning(why: Why, cleanup: CleanupPc)
    | Leave(how: Exit)
    | Checking(reap: ReapPc)
    | Halting(stop: StopPc)

  datatype State = State(
    lock: Option<Holder>,
    admin: Option<nat>,
    owns: bool,
    liveProc: Option<nat>,
    capProc: Option<nat>,
    active: Mode,
    procs: seq<Proc>,
    killed: set<nat>,     // processes that a clean-up sent SIGKILL and did not wait for
    pc: seq<Pc>,
    fault: bool)

  datatype Call = RunCapture | StartLive | StopLive | Reap | Stop

  /** A call arrives on an idle thread, a thread takes one step, or a process exits.
      `ok` is the step's luck: the spawn works, the wait ends before its timeout. */
  datatype Event = Begin(t: nat, call: Call) | Advance(t: nat, ok: bool) | ProcExit(p: nat)

  function Init(threads: nat): State {
    State(None, None, false, None, None, Off, [], {}, seq(threads, _ => Idle), false)
  }

  function Step(s: State, e: Event): State {
    match e
    case Begin(t, call) =>
      if t < |s.pc| && s.pc[t].Idle? then Goto(s, t, Entry(call)) else s
    case Advance(t, ok) =>
      if t >= |s.pc| then s else ThreadStep(s, t, ok)
    case ProcExit(p) =>
      if p < |s.procs| then s.(procs := s.procs[p := Exited]) else s
  }

  function ThreadStep(s: State, t: nat, ok: bool): State
    requires t < |s.pc|
  {
    match s.pc[t]
    case Idle => s
    case Capturing(at) => CaptureStep(s, t, at, ok)
    case Starting(at) => StartStep(s, t, at, ok)
    case Cleaning(why, at) => CleanupStep(s, t, why, at, ok)
    case Leave(how) => LeaveStep(s, t, how)
    case Checking(at) => ReapStep(s, t, at)
    case Halting(at) => StopStep(s, t, at, ok)
  }

  function Run(s: State, events: seq<Event>): State
    decreases events
  {
    if events == [] then s else Run(Step(s, events[0]), events[1..])
  }

  function Entry(call: Call): Pc {
    match call
    case RunCapture => Capturing(CapTry)
    case StartLive => Starting(LiveAdmin)
    case StopLive => Checking(StopLiveAdmin)
    case Reap => Checking(ReapRead)
    case Stop => Halting(StopRead)
  }

  function Goto(s: State, t: nat, pc: Pc): State
    requires t < |s.pc|
  {
    s.(pc := s.pc[t := pc])
  }

  function Kill(procs: seq<Proc>, p: nat): (killed: seq<Proc>)
    ensures |killed| == |procs| && (p < |procs| ==> !killed[p].Running?)
    ensures forall q: nat :: q < |procs| ==> killed[q] == procs[q] || (procs[q].Running? && killed[q].Doomed?)
  {
    if p < |procs| && procs[p].Running? then procs[p := Doomed] else procs
  }

  predicate Alive(s: State, p: Option<nat>) {
    p.Some? && p.value < |s.procs| && !s.procs[p.value].Exited?
  }

  /** `_run`: try the lock, mark, spawn, wait (killing on timeout), unmark, release. */
  function CaptureStep(s: State, t: nat, at: CapturePc, ok: bool): State
    requires t < |s.pc|
  {
    match at
    case CapTry =>
      if s.lock.None? then Goto(s.(lock := Some(Capture(t))), t, Capturing(CapMark)) else Goto(s, t, Idle)
    case CapMark => Goto(s.(active := CaptureMode), t, Capturing(CapSpawn))
    case CapSpawn =>
      if ok then Goto(s.(procs := s.procs + [Running]), t, Capturing(CapRecord(|s.procs|)))
      else Goto(s, t, Capturing(CapForget))
    case CapRecord(p) => Goto(s.(capProc := Some(p)), t, Capturing(CapWait(p)))
    case CapWait(p) =>
      if !ok then Goto(s.(procs := Kill(s.procs, p)), t, Capturing(CapDrain(p)))
      else if Alive(s, Some(p)) then s
      else Goto(s, t, Capturing(CapForget))
    case CapDrain(p) => if Alive(s, Some(p)) then s else Goto(s, t, Capturing(CapForget))
    case CapForget => Goto(s.(capProc := None), t, Capturing(CapUnmark))
    case CapUnmark => Goto(s.(active := Off), t, Capturing(CapRelease))
    case CapRelease => Goto(s.(lock := None, fault := s.fault || s.lock != Some(Capture(t))), t, Idle)
  }

  /** `start_live` and `_spawn_live`, with the USB reset and the one retry. */
  function StartStep(s: State, t: nat, at: StartPc, ok: bool): State
    requires t < |s.pc|
  {
    match at
    case LiveAdmin => if s.admin.None? then Goto(s.(admin := Some(t)), t, Starting(LiveTry)) else s
    case LiveTry =>
      if s.lock.None? then Goto(s.(lock := Some(Live)), t, Starting(LiveOwn)) else Goto(s, t, Leave(Busy))
    case LiveOwn => Goto(s.(owns := true), t, Starting(LiveBuild))
    case LiveBuild => Goto(s, t, if ok then Starting(LiveSpawn(false)) else Cleaning(Failed, ClnRead))
    case LiveSpawn(second) =>
      if ok then Goto(s.(procs := s.procs + [Running]), t, Starting(LiveRecord(|s.procs|, second)))
      else Goto(s, t, Cleaning(Failed, ClnRead))
    case LiveRecord(p, second) => Goto(s.(liveProc := Some(p)), t, Starting(LiveMark(second)))
    case LiveMark(second) =>
      Goto(s.(active := LiveMode), t, if ok then Starting(LiveProbe(second)) else Cleaning(Failed, ClnRead))
    case LiveProbe(second) =>
      Goto(s, t, if Alive(s, s.liveProc) then Leave(Started)
                 else Cleaning(if second then DeadSecond else DeadFirst, ClnRead))
    case LiveUsbReset => Goto(s, t, if ok then Starting(LiveRetry) else Cleaning(Failed, ClnRead))
    case LiveRetry =>
      if s.lock.None? then Goto(s.(lock := Some(Live)), t, Starting(LiveReown))
      else Goto(s, t, Cleaning(Failed, ClnRead))
    case LiveReown => Goto(s.(owns := true), t, Starting(LiveSpawn(true)))
  }

  /** `_live_cleanup`. */
  function CleanupStep(s: State, t: nat, why: Why, at: CleanupPc, ok: bool): State
    requires t < |s.pc|
  {
    match at
    case ClnRead => Goto(s, t, Cleaning(why, ClnPoll(s.liveProc)))
    case ClnPoll(proc) => Goto(s, t, Cleaning(why, if Alive(s, proc) then ClnWait(proc.value) else ClnForget))
    case ClnWait(p) =>
      if !ok then Goto(s.(procs := Kill(s.procs, p), killed := s.killed + {p}), t, Cleaning(why, ClnForget))
      else if Alive(s, Some(p)) then s
      else Goto(s, t, Cleaning(why, ClnForget))
    case ClnForget => Goto(s.(liveProc := None), t, Cleaning(why, ClnUnmark))
    case ClnUnmark => Goto(s.(active := Off), t, Cleaning(why, ClnOwn))
    case ClnOwn =>
      if s.owns then Goto(s.(owns := false), t, Cleaning(why, ClnRelease)) else Goto(s, t, AfterCleanup(why))
    case ClnRelease => Goto(s.(lock := None, fault := s.fault || s.lock != Some(Live)), t, AfterCleanup(why))
  }

  function AfterCleanup(why: Why): Pc {
    match why
    case Stopping => Leave(Stopped)
    case Reaping(_) => Leave(Reaped)
    case DeadFirst => Starting(LiveUsbReset)
    case DeadSecond => Cleaning(Failed, ClnRead)
    case Failed => Leave(Raised)
  }

  /** Leaving the admin section; a start or a stop then asks for the live status, which reaps. */
  function LeaveStep(s: State, t: nat, how: Exit): State
    requires t < |s.pc|
  {
    Goto(s.(admin := None, fault := s.fault || s.admin != Some(t)), t,
         if how.Started? || how.Stopped? then Checking(ReapRead) else Idle)
  }

  /** `stop_live` up to its clean-up, and `_reap_if_dead`, which checks outside the admin section. */
  function ReapStep(s: State, t: nat, at: ReapPc): State
    requires t < |s.pc|
  {
    match at
    case StopLiveAdmin =>
      if s.admin.None? then Goto(s.(admin := Some(t)), t, Cleaning(Stopping, ClnRead)) else s
    case ReapRead => Goto(s, t, Checking(ReapOwns(s.liveProc)))
    case ReapOwns(proc) => Goto(s, t, if s.owns then Checking(ReapPoll(proc)) else Idle)
    case ReapPoll(proc) =>
      Goto(s, t, if proc.Some? && !Alive(s, proc) then Checking(ReapAdmin(proc.value)) else Idle)
    case ReapAdmin(seen) =>
      if s.admin.None? then Goto(s.(admin := Some(t)), t, Cleaning(Reaping(seen), ClnRead)) else s
  }

  /** `stop`: end a one-shot run, then wait for the lock and give it straight back. */
  function StopStep(s: State, t: nat, at: StopPc, ok: bool): State
    requires t < |s.pc|
  {
    match at
    case StopRead => Goto(s, t, Halting(StopPoll(s.capProc)))
    case StopPoll(proc) => Goto(s, t, Halting(if Alive(s, proc) then StopWait(proc.value) else StopOwns))
    case StopWait(p) =>
      if !ok then Goto(s.(procs := Kill(s.procs, p)), t, Halting(StopOwns))
      else if Alive(s, Some(p)) then s
      else Goto(s, t, Halting(StopOwns))
    case StopOwns => Goto(s, t, if s.owns then Idle else Halting(StopTry))
    case StopTry =>
      if s.lock.None? then Goto(s.(lock := Some(Barrier(t))), t, Halting(StopRelease))
      else if ok then s
      else Goto(s, t, Idle)
    case StopRelease => Goto(s.(lock := None, fault := s.fault || s.lock != Some(Barrier(t))), t, Idle)
  }

  // ----- the invariant

  /** A one-shot run between taking the lock and releasing it. */
  predicate CapHolds(pc: Pc) {
    pc.Capturing? && !pc.capture.CapTry?
  }

  /** A thread inside the `admin` mutex. */
  predicate InAdmin(pc: Pc) {
    (pc.Starting? && !pc.start.LiveAdmin?) || pc.Cleaning? || pc.Leave?
  }

  predicate HasBarrier(pc: Pc) {
    pc == Halting(StopRelease)
  }

  /** The live console has the lock but its flag does not say so (yet, or any more). */
  predicate Between(s: State) {
    s.admin.Some? && s.admin.value < |s.pc|
    && var pc := s.pc[s.admin.value];
       pc == Starting(LiveOwn) || pc == Starting(LiveReown) || (pc.Cleaning? && pc.cleanup.ClnRelease?)
  }

  /** What the thread inside the admin section knows at each point. */
  predicate AdminKnows(s: State, pc: Pc) {
    match pc
    case Starting(at) => StarterKnows(s, at)
    case Cleaning(why, at) => CleanerKnows(s, why, at)
    case Leave(how) =>
      if how.Started? then s.owns && s.liveProc.Some?
      else if how.Busy? then s.owns <==> s.liveProc.Some?
      else !s.owns && s.liveProc.None?
    case _ => true
  }

  predicate StarterKnows(s: State, at: StartPc) {
    match at
    case LiveAdmin => true
    case LiveTry => s.owns <==> s.liveProc.Some?
    case LiveBuild => s.owns && s.liveProc.None?
    case LiveSpawn(_) => s.owns && s.liveProc.None?
    case LiveRecord(p, _) => s.owns && s.liveProc.None? && p < |s.procs|
    case LiveMark(_) => s.owns && s.liveProc.Some?
    case LiveProbe(_) => s.owns && s.liveProc.Some?
    case _ => !s.owns && s.liveProc.None?
  }

  predicate CleanerKnows(s: State, why: Why, at: CleanupPc) {
    match at
    case ClnRead => (s.liveProc.Some? ==> s.owns) && SeenExited(s, why)
    case ClnPoll(proc) => proc == s.liveProc && (s.liveProc.Some? ==> s.owns) && SeenExited(s, why)
    case ClnWait(p) => s.liveProc == Some(p) && s.owns && SeenExited(s, why) && (why.Reaping? ==> why.seen != p)
    case ClnForget =>
      s.liveProc.Some? ==>
        s.owns && s.liveProc.value < |s.procs| && (s.procs[s.liveProc.value].Exited? || s.liveProc.value in s.killed)
    case ClnUnmark => s.liveProc.None?
    case ClnOwn => s.liveProc.None? && !s.active.LiveMode?
    case ClnRelease => s.liveProc.None? && !s.owns
  }

  /** A reaper only gets here for a process that has exited. */
  predicate SeenExited(s: State, why: Why) {
    why.Reaping? ==> why.seen < |s.procs| && s.procs[why.seen].Exited?
  }

  /** What any thread remembers is a real process. */
  predicate Remembers(s: State, pc: Pc) {
    match pc
    case Capturing(at) => at.CapRecord? || at.CapWait? || at.CapDrain? ==> at.p < |s.procs|
    case Checking(at) =>
      && ((at.ReapOwns? || at.ReapPoll?) && at.proc.Some? ==> at.proc.value < |s.procs|)
      && (at.ReapAdmin? ==> at.seen < |s.procs| && s.procs[at.seen].Exited?)
    case _ => true
  }

  /** The one-shot run of the thread that holds the lock is using process `p`. */
  predicate CaptureUses(s: State, p: nat) {
    s.lock.Some? && s.lock.value.Capture? && s.lock.value.t < |s.pc|
    && var pc := s.pc[s.lock.value.t];
       pc.Capturing? && (pc.capture == CapRecord(p) || pc.capture == CapWait(p) || pc.capture == CapDrain(p))
  }

  /** The live console, which has the lock, is using process `p`. */
  predicate LiveUses(s: State, p: nat) {
    s.owns
    && (s.liveProc == Some(p)
        || (s.liveProc.None? && s.admin.Some? && s.admin.value < |s.pc|
            && var pc := s.pc[s.admin.value]; pc.Starting? && pc.start.LiveRecord? && pc.start.p == p))
  }

  /** Thread `u` is inside a mutex exactly when that mutex says so. */
  predicate HoldsAsSeen(s: State, u: nat)
    requires u < |s.pc|
  {
    && (InAdmin(s.pc[u]) <==> s.admin == Some(u))
    && (CapHolds(s.pc[u]) <==> s.lock == Some(Capture(u)))
    && (HasBarrier(s.pc[u]) <==> s.lock == Some(Barrier(u)))
  }

  predicate LocksInRange(s: State) {
    && (s.admin.Some? ==> s.admin.value < |s.pc|)
    && (s.lock.Some? && !s.lock.value.Live? ==> s.lock.value.t < |s.pc|)
    && (s.lock == Some(Live) <==> s.owns || Between(s))
  }

  ghost predicate LockInv(s: State) {
    && !s.fault
    && LocksInRange(s)
    && (forall u: nat :: u < |s.pc| ==> HoldsAsSeen(s, u))
  }

  ghost predicate AdminInv(s: State) {
    && (s.admin.Some? && s.admin.value < |s.pc| ==> AdminKnows(s, s.pc[s.admin.value]))
    && (s.admin.None? ==> (s.owns <==> s.liveProc.Some?))
  }

  /** Every recorded process number names a process. */
  predicate PidsInRange(s: State) {
    && (s.liveProc.Some? ==> s.liveProc.value < |s.procs|)
    && (s.capProc.Some? ==> s.capProc.value < |s.procs|)
  }

  ghost predicate KilledInv(s: State) {
    forall p: nat :: p in s.killed ==> p < |s.procs| && !s.procs[p].Running?
  }

  ghost predicate MemoryInv(s: State) {
    forall u: nat :: u < |s.pc| ==> Remembers(s, s.pc[u])
  }

  /** The status dictionary: a mode is only shown while its owner has the lock. */
  ghost predicate StatusInv(s: State) {
    && (s.active.LiveMode? ==> s.owns)
    && (s.active.CaptureMode? ==>
          s.lock.Some? && s.lock.value.Capture? && s.lock.value.t < |s.pc|
              && s.pc[s.lock.value.t] != Capturing(CapRelease))
  }

  /** A process that has not exited is in use by the holder of the lock, unless it was sent SIGKILL. */
  ghost predicate UseInv(s: State) {
    forall p: nat :: p < |s.procs| ==> UsedOrDone(s, p)
  }

  predicate UsedOrDone(s: State, p: nat)
    requires p < |s.procs|
  {
    s.procs[p].Exited? || p in s.killed || CaptureUses(s, p) || LiveUses(s, p)
  }

  ghost predicate Inv(s: State) {
    LockInv(s) && AdminInv(s) && PidsInRange(s) && KilledInv(s) && MemoryInv(s) && StatusInv(s) && UseInv(s)
  }

  /** What a step of thread `t` can change of what other threads see. */
  predicate Touches(s: State, s': State, t: nat) {
    && |s'.pc| == |s.pc|
    && (forall u: nat :: u < |s.pc| && u != t ==> s'.pc[u] == s.pc[u])
    && (s'.admin == s.admin || (s.admin.None? && s'.admin == Some(t)) || (s.admin == Some(t) && s'.admin.None?))
    && (s'.lock == s.lock || (s.lock.None? && MayTake(s'.lock, t)) || (MayTake(s.lock, t) && s'.lock.None?))
    && Grows(s, s')
  }

  predicate MayTake(lock: Option<Holder>, t: nat) {
    lock == Some(Live) || lock == Some(Capture(t)) || lock == Some(Barrier(t))
  }

  /** Processes are never forgotten, and an exited process stays exited. */
  predicate Grows(s: State, s': State) {
    |s.procs| <= |s'.procs| && forall p: nat :: p < |s.procs| && s.procs[p].Exited? ==> s'.procs[p].Exited?
  }

  /** What the thread in the admin section knows does not depend on a step of another thread that leaves the live
      session alone. */
  lemma AdminFrame(s: State, s': State, t: nat)
    requires AdminInv(s) && s.admin != Some(t) && Touches(s, s', t)
    requires s'.admin == s.admin && s'.owns == s.owns && s'.liveProc == s.liveProc && s.killed <= s'.killed
    requires s'.active.LiveMode? ==> s.active.LiveMode?
    ensures AdminInv(s')
  {
    hide MayTake;
  }

  lemma CaptureKeepsLock(s: State, t: nat, at: CapturePc, ok: bool)
    requires t < |s.pc| && s.pc[t] == Capturing(at)
    requires !s.fault && LocksInRange(s) && HoldsAsSeen(s, t) && AdminInv(s)
    ensures var s' := CaptureStep(s, t, at, ok);
            Touches(s, s', t) && !s'.fault && LocksInRange(s') && HoldsAsSeen(s', t)
  {
    hide Kill;
  }

  lemma CaptureKeepsAdmin(s: State, t: nat, at: CapturePc, ok: bool)
    requires t < |s.pc| && s.pc[t] == Capturing(at)
    requires !s.fault && LocksInRange(s) && HoldsAsSeen(s, t) && AdminInv(s)
    ensures AdminInv(CaptureStep(s, t, at, ok))
  {
    hide AdminInv, LocksInRange, Touches;
    CaptureKeepsLock(s, t, at, ok);
    AdminFrame(s, CaptureStep(s, t, at, ok), t);
  }

  lemma CaptureKeepsStatus(s: State, t: nat, at: CapturePc, ok: bool)
    requires t < |s.pc| && s.pc[t] == Capturing(at)
    requires LocksInRange(s) && HoldsAsSeen(s, t) && AdminInv(s) && StatusInv(s)
    ensures StatusInv(CaptureStep(s, t, at, ok))
  {
  }

  lemma CaptureKeepsPids(s: State, t: nat, at: CapturePc, ok: bool)
    requires t < |s.pc| && s.pc[t] == Capturing(at)
    requires HoldsAsSeen(s, t) && AdminInv(s) && PidsInRange(s) && KilledInv(s) && Remembers(s, s.pc[t])
    ensures PidsInRange(CaptureStep(s, t, at, ok)) && KilledInv(CaptureStep(s, t, at, ok))
  {
    hide Kill, Alive, HoldsAsSeen, AdminInv;
  }

  lemma CaptureKeepsMemory(s: State, t: nat, at: CapturePc, ok: bool)
    requires t < |s.pc| && s.pc[t] == Capturing(at)
    requires Remembers(s, s.pc[t]) && PidsInRange(s)
    ensures var s' := CaptureStep(s, t, at, ok); |s'.pc| == |s.pc| && Remembers(s', s'.pc[t])
  {
    hide Kill, Alive, HoldsAsSeen, AdminInv;
  }

  lemma CaptureKeepsUse(s: State, t: nat, at: CapturePc, ok: bool, p: nat)
    requires t < |s.pc| && s.pc[t] == Capturing(at)
    requires !s.fault && LocksInRange(s) && HoldsAsSeen(s, t) && AdminInv(s) && PidsInRange(s) && Remembers(s, s.pc[t])
    requires s.lock.Some? && s.lock.value.Capture? ==> HoldsAsSeen(s, s.lock.value.t)
    requires s.admin.Some? ==> HoldsAsSeen(s, s.admin.value)
    requires p < |s.procs| ==> UsedOrDone(s, p)
    ensures var s' := CaptureStep(s, t, at, ok); p < |s'.procs| ==> UsedOrDone(s', p)
  {
  }

  lemma StartKeepsLock(s: State, t: nat, at: StartPc, ok: bool)
    requires t < |s.pc| && s.pc[t] == Starting(at)
    requires !s.fault && LocksInRange(s) && HoldsAsSeen(s, t) && AdminInv(s)
    ensures var s' := StartStep(s, t, at, ok);
            Touches(s, s', t) && !s'.fault && LocksInRange(s') && HoldsAsSeen(s', t)
  {
  }

  /** A start before it has the admin section, and inside it. */
  lemma StartEnters(s: State, t: nat, ok: bool)
    requires t < |s.pc| && s.pc[t] == Starting(LiveAdmin) && s.admin != Some(t) && AdminInv(s)
    ensures AdminInv(StartStep(s, t, LiveAdmin, ok))
  {
    hide CleanerKnows, Alive;
  }

  lemma StartGoesOn(s: State, t: nat, at: StartPc, ok: bool)
    requires t < |s.pc| && s.pc[t] == Starting(at) && !at.LiveAdmin? && s.admin == Some(t) && StarterKnows(s, at)
    requires s.owns ==> s.lock == Some(Live)
    ensures AdminInv(StartStep(s, t, at, ok))
  {
    hide Kill;
  }

  lemma StartKeepsAdmin(s: State, t: nat, at: StartPc, ok: bool)
    requires t < |s.pc| && s.pc[t] == Starting(at)
    requires LocksInRange(s) && HoldsAsSeen(s, t) && AdminInv(s)
    ensures AdminInv(StartStep(s, t, at, ok))
  {
    hide StartStep, StarterKnows;
    if at.LiveAdmin? {
      StartEnters(s, t, ok);
    } else {
      StartGoesOn(s, t, at, ok);
    }
  }

  lemma StartKeepsStatus(s: State, t: nat, at: StartPc, ok: bool)
    requires t < |s.pc| && s.pc[t] == Starting(at)
    requires LocksInRange(s) && HoldsAsSeen(s, t) && AdminInv(s) && StatusInv(s)
    ensures StatusInv(StartStep(s, t, at, ok))
  {
  }

  lemma StartKeepsPids(s: State, t: nat, at: StartPc, ok: bool)
    requires t < |s.pc| && s.pc[t] == Starting(at)
    requires HoldsAsSeen(s, t) && AdminInv(s) && PidsInRange(s) && KilledInv(s) && Remembers(s, s.pc[t])
    ensures PidsInRange(StartStep(s, t, at, ok)) && KilledInv(StartStep(s, t, at, ok))
  {
  }

  lemma StartKeepsMemory(s: State, t: nat, at: StartPc, ok: bool)
    requires t < |s.pc| && s.pc[t] == Starting(at)
    requires Remembers(s, s.pc[t]) && PidsInRange(s)
    ensures var s' := StartStep(s, t, at, ok); |s'.pc| == |s.pc| && Remembers(s', s'.pc[t])
  {
    hide Kill, Alive, HoldsAsSeen, AdminInv;
  }

  lemma StartKeepsUse(s: State, t: nat, at: StartPc, ok: bool, p: nat)
    requires t < |s.pc| && s.pc[t] == Starting(at)
    requires !s.fault && LocksInRange(s) && HoldsAsSeen(s, t) && AdminInv(s) && PidsInRange(s) && Remembers(s, s.pc[t])
    requires s.lock.Some? && s.lock.value.Capture? ==> HoldsAsSeen(s, s.lock.value.t)
    requires s.admin.Some? ==> HoldsAsSeen(s, s.admin.value)
    requires p < |s.procs| ==> UsedOrDone(s, p)
    ensures var s' := StartStep(s, t, at, ok); p < |s'.procs| ==> UsedOrDone(s', p)
  {
  }

  lemma CleanupKeepsLock(s: State, t: nat, why: Why, at: CleanupPc, ok: bool)
    requires t < |s.pc| && s.pc[t] == Cleaning(why, at)
    requires !s.fault && LocksInRange(s) && HoldsAsSeen(s, t) && AdminInv(s)
    ensures var s' := CleanupStep(s, t, why, at, ok);
            Touches(s, s', t) && !s'.fault && LocksInRange(s') && HoldsAsSeen(s', t)
  {
    hide Kill;
  }

  /** The clean-up up to its finding of the process, and from there on. */
  lemma CleanupFinds(s: State, t: nat, why: Why, at: CleanupPc, ok: bool)
    requires t < |s.pc| && s.pc[t] == Cleaning(why, at) && s.admin == Some(t)
        && (at.ClnRead? || at.ClnPoll? || at.ClnWait?)
    requires CleanerKnows(s, why, at) && PidsInRange(s)
    ensures AdminInv(CleanupStep(s, t, why, at, ok))
  {
    hide AfterCleanup, StarterKnows;
  }

  lemma CleanupForgets(s: State, t: nat, why: Why, at: CleanupPc, ok: bool)
    requires t < |s.pc| && s.pc[t] == Cleaning(why, at) && s.admin == Some(t)
        && !(at.ClnRead? || at.ClnPoll? || at.ClnWait?)
    requires CleanerKnows(s, why, at)
    ensures AdminInv(CleanupStep(s, t, why, at, ok))
  {
    hide Alive, Kill;
  }

  lemma CleanupKeepsAdmin(s: State, t: nat, why: Why, at: CleanupPc, ok: bool)
    requires t < |s.pc| && s.pc[t] == Cleaning(why, at)
    requires HoldsAsSeen(s, t) && AdminInv(s) && PidsInRange(s)
    ensures AdminInv(CleanupStep(s, t, why, at, ok))
  {
    hide CleanupStep, CleanerKnows, PidsInRange;
    if at.ClnRead? || at.ClnPoll? || at.ClnWait? {
      CleanupFinds(s, t, why, at, ok);
    } else {
      CleanupForgets(s, t, why, at, ok);
    }
  }

  lemma CleanupKeepsStatus(s: State, t: nat, why: Why, at: CleanupPc, ok: bool)
    requires t < |s.pc| && s.pc[t] == Cleaning(why, at)
    requires LocksInRange(s) && HoldsAsSeen(s, t) && AdminInv(s) && StatusInv(s)
    ensures StatusInv(CleanupStep(s, t, why, at, ok))
  {
  }

  lemma CleanupKeepsPids(s: State, t: nat, why: Why, at: CleanupPc, ok: bool)
    requires t < |s.pc| && s.pc[t] == Cleaning(why, at)
    requires HoldsAsSeen(s, t) && AdminInv(s) && PidsInRange(s) && KilledInv(s) && Remembers(s, s.pc[t])
    ensures PidsInRange(CleanupStep(s, t, why, at, ok)) && KilledInv(CleanupStep(s, t, why, at, ok))
  {
    hide Kill, Alive;
  }

  lemma CleanupKeepsMemory(s: State, t: nat, why: Why, at: CleanupPc, ok: bool)
    requires t < |s.pc| && s.pc[t] == Cleaning(why, at)
    requires Remembers(s, s.pc[t]) && PidsInRange(s)
    ensures var s' := CleanupStep(s, t, why, at, ok); |s'.pc| == |s.pc| && Remembers(s', s'.pc[t])
  {
    hide Kill, Alive, HoldsAsSeen, AdminInv;
  }

  lemma CleanupKeepsUse(s: State, t: nat, why: Why, at: CleanupPc, ok: bool, p: nat)
    requires t < |s.pc| && s.pc[t] == Cleaning(why, at)
    requires !s.fault && LocksInRange(s) && HoldsAsSeen(s, t) && AdminInv(s) && PidsInRange(s) && Remembers(s, s.pc[t])
    requires s.lock.Some? && s.lock.value.Capture? ==> HoldsAsSeen(s, s.lock.value.t)
    requires s.admin.Some? ==> HoldsAsSeen(s, s.admin.value)
    requires p < |s.procs| ==> UsedOrDone(s, p)
    ensures var s' := CleanupStep(s, t, why, at, ok); p < |s'.procs| ==> UsedOrDone(s', p)
  {
  }

  lemma LeaveKeepsLock(s: State, t: nat, how: Exit)
    requires t < |s.pc| && s.pc[t] == Leave(how)
    requires !s.fault && LocksInRange(s) && HoldsAsSeen(s, t) && AdminInv(s)
    ensures var s' := LeaveStep(s, t, how);
            Touches(s, s', t) && !s'.fault && LocksInRange(s') && HoldsAsSeen(s', t)
  {
  }

  lemma LeaveKeepsAdmin(s: State, t: nat, how: Exit)
    requires t < |s.pc| && s.pc[t] == Leave(how)
    requires LocksInRange(s) && HoldsAsSeen(s, t) && AdminInv(s) && StatusInv(s) && PidsInRange(s)
        && Remembers(s, s.pc[t])
    ensures AdminInv(LeaveStep(s, t, how))
  {
  }

  lemma LeaveKeepsStatus(s: State, t: nat, how: Exit)
    requires t < |s.pc| && s.pc[t] == Leave(how)
    requires LocksInRange(s) && HoldsAsSeen(s, t) && AdminInv(s) && StatusInv(s)
    ensures StatusInv(LeaveStep(s, t, how))
  {
  }

  lemma LeaveKeepsPids(s: State, t: nat, how: Exit)
    requires t < |s.pc| && s.pc[t] == Leave(how)
    requires HoldsAsSeen(s, t) && AdminInv(s) && PidsInRange(s) && KilledInv(s) && Remembers(s, s.pc[t])
    ensures PidsInRange(LeaveStep(s, t, how)) && KilledInv(LeaveStep(s, t, how))
  {
  }

  lemma LeaveKeepsMemory(s: State, t: nat, how: Exit)
    requires t < |s.pc| && s.pc[t] == Leave(how)
    requires Remembers(s, s.pc[t]) && PidsInRange(s)
    ensures var s' := LeaveStep(s, t, how); |s'.pc| == |s.pc| && Remembers(s', s'.pc[t])
  {
  }

  lemma LeaveKeepsUse(s: State, t: nat, how: Exit, p: nat)
    requires t < |s.pc| && s.pc[t] == Leave(how)
    requires !s.fault && LocksInRange(s) && HoldsAsSeen(s, t) && AdminInv(s) && PidsInRange(s) && Remembers(s, s.pc[t])
    requires s.lock.Some? && s.lock.value.Capture? ==> HoldsAsSeen(s, s.lock.value.t)
    requires s.admin.Some? ==> HoldsAsSeen(s, s.admin.value)
    requires p < |s.procs| ==> UsedOrDone(s, p)
    ensures var s' := LeaveStep(s, t, how); p < |s'.procs| ==> UsedOrDone(s', p)
  {
  }

  lemma ReapKeepsLock(s: State, t: nat, at: ReapPc)
    requires t < |s.pc| && s.pc[t] == Checking(at)
    requires !s.fault && LocksInRange(s) && HoldsAsSeen(s, t) && AdminInv(s)
    ensures var s' := ReapStep(s, t, at);
            Touches(s, s', t) && !s'.fault && LocksInRange(s') && HoldsAsSeen(s', t)
  {
  }

  /** Entering the admin section to clean up. */
  lemma AdminEntered(s: State, t: nat, why: Why)
    requires t < |s.pc| && s.admin.None? && AdminInv(s) && SeenExited(s, why)
    ensures AdminInv(s.(admin := Some(t), pc := s.pc[t := Cleaning(why, ClnRead)]))
  {
  }

  lemma ReapKeepsAdmin(s: State, t: nat, at: ReapPc)
    requires t < |s.pc| && s.pc[t] == Checking(at)
    requires !s.fault && LocksInRange(s) && HoldsAsSeen(s, t) && AdminInv(s) && Remembers(s, s.pc[t])
    ensures AdminInv(ReapStep(s, t, at))
  {
    hide AdminInv, LocksInRange, Touches;
    if at.StopLiveAdmin? && s.admin.None? {
      AdminEntered(s, t, Stopping);
    } else if at.ReapAdmin? && s.admin.None? {
      AdminEntered(s, t, Reaping(at.seen));
    } else {
      ReapKeepsLock(s, t, at);
      AdminFrame(s, ReapStep(s, t, at), t);
    }
  }

  lemma ReapKeepsStatus(s: State, t: nat, at: ReapPc)
    requires t < |s.pc| && s.pc[t] == Checking(at)
    requires LocksInRange(s) && HoldsAsSeen(s, t) && AdminInv(s) && StatusInv(s)
    ensures StatusInv(ReapStep(s, t, at))
  {
  }

  lemma ReapKeepsPids(s: State, t: nat, at: ReapPc)
    requires t < |s.pc| && s.pc[t] == Checking(at)
    requires HoldsAsSeen(s, t) && AdminInv(s) && PidsInRange(s) && KilledInv(s) && Remembers(s, s.pc[t])
    ensures PidsInRange(ReapStep(s, t, at)) && KilledInv(ReapStep(s, t, at))
  {
  }

  lemma ReapKeepsMemory(s: State, t: nat, at: ReapPc)
    requires t < |s.pc| && s.pc[t] == Checking(at)
    requires Remembers(s, s.pc[t]) && PidsInRange(s)
    ensures var s' := ReapStep(s, t, at); |s'.pc| == |s.pc| && Remembers(s', s'.pc[t])
  {
  }

  lemma ReapKeepsUse(s: State, t: nat, at: ReapPc, p: nat)
    requires t < |s.pc| && s.pc[t] == Checking(at)
    requires !s.fault && LocksInRange(s) && HoldsAsSeen(s, t) && AdminInv(s) && PidsInRange(s) && Remembers(s, s.pc[t])
    requires s.lock.Some? && s.lock.value.Capture? ==> HoldsAsSeen(s, s.lock.value.t)
    requires s.admin.Some? ==> HoldsAsSeen(s, s.admin.value)
    requires p < |s.procs| ==> UsedOrDone(s, p)
    ensures var s' := ReapStep(s, t, at); p < |s'.procs| ==> UsedOrDone(s', p)
  {
  }

  lemma StopKeepsLock(s: State, t: nat, at: StopPc, ok: bool)
    requires t < |s.pc| && s.pc[t] == Halting(at)
    requires !s.fault && LocksInRange(s) && HoldsAsSeen(s, t) && AdminInv(s)
    ensures var s' := StopStep(s, t, at, ok);
            Touches(s, s', t) && !s'.fault && LocksInRange(s') && HoldsAsSeen(s', t)
  {
    hide Kill, Alive, AdminInv;
  }

  lemma StopKeepsAdmin(s: State, t: nat, at: StopPc, ok: bool)
    requires t < |s.pc| && s.pc[t] == Halting(at)
    requires !s.fault && LocksInRange(s) && HoldsAsSeen(s, t) && AdminInv(s)
    ensures AdminInv(StopStep(s, t, at, ok))
  {
    hide AdminInv, LocksInRange, Touches;
    StopKeepsLock(s, t, at, ok);
    AdminFrame(s, StopStep(s, t, at, ok), t);
  }

  lemma StopKeepsStatus(s: State, t: nat, at: StopPc, ok: bool)
    requires t < |s.pc| && s.pc[t] == Halting(at)
    requires LocksInRange(s) && HoldsAsSeen(s, t) && AdminInv(s) && StatusInv(s)
    ensures StatusInv(StopStep(s, t, at, ok))
  {
  }

  lemma StopKeepsPids(s: State, t: nat, at: StopPc, ok: bool)
    requires t < |s.pc| && s.pc[t] == Halting(at)
    requires HoldsAsSeen(s, t) && AdminInv(s) && PidsInRange(s) && KilledInv(s) && Remembers(s, s.pc[t])
    ensures PidsInRange(StopStep(s, t, at, ok)) && KilledInv(StopStep(s, t, at, ok))
  {
    hide Kill, Alive, HoldsAsSeen, AdminInv;
  }

  lemma StopKeepsMemory(s: State, t: nat, at: StopPc, ok: bool)
    requires t < |s.pc| && s.pc[t] == Halting(at)
    requires Remembers(s, s.pc[t]) && PidsInRange(s)
    ensures var s' := StopStep(s, t, at, ok); |s'.pc| == |s.pc| && Remembers(s', s'.pc[t])
  {
    hide Kill, Alive, HoldsAsSeen, AdminInv;
  }

  lemma StopKeepsUse(s: State, t: nat, at: StopPc, ok: bool, p: nat)
    requires t < |s.pc| && s.pc[t] == Halting(at)
    requires !s.fault && LocksInRange(s) && HoldsAsSeen(s, t) && AdminInv(s) && PidsInRange(s) && Remembers(s, s.pc[t])
    requires s.lock.Some? && s.lock.value.Capture? ==> HoldsAsSeen(s, s.lock.value.t)
    requires s.admin.Some? ==> HoldsAsSeen(s, s.admin.value)
    requires p < |s.procs| ==> UsedOrDone(s, p)
    ensures var s' := StopStep(s, t, at, ok); p < |s'.procs| ==> UsedOrDone(s', p)
  {
  }

  lemma OthersKeepLock(s: State, s': State, t: nat, u: nat)
    requires t < |s.pc| && u < |s.pc| && u != t
    requires Touches(s, s', t) && HoldsAsSeen(s, u)
    ensures HoldsAsSeen(s', u)
  {
  }

  lemma OthersKeepMemory(s: State, s': State, pc: Pc)
    requires Grows(s, s') && Remembers(s, pc)
    ensures Remembers(s', pc)
  {
  }

  lemma ThreadKeepsLock(s: State, t: nat, ok: bool)
    requires t < |s.pc| && !s.fault && LocksInRange(s) && HoldsAsSeen(s, t) && AdminInv(s)
    ensures var s' := ThreadStep(s, t, ok);
            Touches(s, s', t) && !s'.fault && LocksInRange(s') && HoldsAsSeen(s', t)
  {
    match s.pc[t]
    case Idle =>
    case Capturing(at) => CaptureKeepsLock(s, t, at, ok);
    case Starting(at) => StartKeepsLock(s, t, at, ok);
    case Cleaning(why, at) => CleanupKeepsLock(s, t, why, at, ok);
    case Leave(how) => LeaveKeepsLock(s, t, how);
    case Checking(at) => ReapKeepsLock(s, t, at);
    case Halting(at) => StopKeepsLock(s, t, at, ok);
  }

  lemma ThreadKeepsAdmin(s: State, t: nat, ok: bool)
    requires t < |s.pc| && !s.fault && LocksInRange(s) && HoldsAsSeen(s, t)
    requires AdminInv(s) && StatusInv(s) && PidsInRange(s) && Remembers(s, s.pc[t])
    ensures AdminInv(ThreadStep(s, t, ok))
  {
    match s.pc[t]
    case Idle =>
    case Capturing(at) => CaptureKeepsAdmin(s, t, at, ok);
    case Starting(at) => StartKeepsAdmin(s, t, at, ok);
    case Cleaning(why, at) => CleanupKeepsAdmin(s, t, why, at, ok);
    case Leave(how) => LeaveKeepsAdmin(s, t, how);
    case Checking(at) => ReapKeepsAdmin(s, t, at);
    case Halting(at) => StopKeepsAdmin(s, t, at, ok);
  }

  lemma ThreadKeepsStatus(s: State, t: nat, ok: bool)
    requires t < |s.pc| && LocksInRange(s) && HoldsAsSeen(s, t) && AdminInv(s) && StatusInv(s)
    ensures StatusInv(ThreadStep(s, t, ok))
  {
    match s.pc[t]
    case Idle =>
    case Capturing(at) => CaptureKeepsStatus(s, t, at, ok);
    case Starting(at) => StartKeepsStatus(s, t, at, ok);
    case Cleaning(why, at) => CleanupKeepsStatus(s, t, why, at, ok);
    case Leave(how) => LeaveKeepsStatus(s, t, how);
    case Checking(at) => ReapKeepsStatus(s, t, at);
    case Halting(at) => StopKeepsStatus(s, t, at, ok);
  }

  lemma ThreadKeepsPids(s: State, t: nat, ok: bool)
    requires t < |s.pc| && HoldsAsSeen(s, t) && AdminInv(s) && PidsInRange(s) && KilledInv(s) && Remembers(s, s.pc[t])
    ensures PidsInRange(ThreadStep(s, t, ok)) && KilledInv(ThreadStep(s, t, ok))
  {
    match s.pc[t]
    case Idle =>
    case Capturing(at) => CaptureKeepsPids(s, t, at, ok);
    case Starting(at) => StartKeepsPids(s, t, at, ok);
    case Cleaning(why, at) => CleanupKeepsPids(s, t, why, at, ok);
    case Leave(how) => LeaveKeepsPids(s, t, how);
    case Checking(at) => ReapKeepsPids(s, t, at);
    case Halting(at) => StopKeepsPids(s, t, at, ok);
  }

  lemma ThreadKeepsMemory(s: State, t: nat, ok: bool)
    requires t < |s.pc| && Remembers(s, s.pc[t]) && PidsInRange(s)
    ensures var s' := ThreadStep(s, t, ok); |s'.pc| == |s.pc| && Remembers(s', s'.pc[t])
  {
    match s.pc[t]
    case Idle =>
    case Capturing(at) => CaptureKeepsMemory(s, t, at, ok);
    case Starting(at) => StartKeepsMemory(s, t, at, ok);
    case Cleaning(why, at) => CleanupKeepsMemory(s, t, why, at, ok);
    case Leave(how) => LeaveKeepsMemory(s, t, how);
    case Checking(at) => ReapKeepsMemory(s, t, at);
    case Halting(at) => StopKeepsMemory(s, t, at, ok);
  }

  lemma ThreadKeepsUse(s: State, t: nat, ok: bool, p: nat)
    requires t < |s.pc| && Inv(s)
    ensures var s' := ThreadStep(s, t, ok); p < |s'.procs| ==> UsedOrDone(s', p)
  {
    assert HoldsAsSeen(s, t);
    match s.pc[t]
    case Idle =>
    case Capturing(at) => CaptureKeepsUse(s, t, at, ok, p);
    case Starting(at) => StartKeepsUse(s, t, at, ok, p);
    case Cleaning(why, at) => CleanupKeepsUse(s, t, why, at, ok, p);
    case Leave(how) => LeaveKeepsUse(s, t, how, p);
    case Checking(at) => ReapKeepsUse(s, t, at, p);
    case Halting(at) => StopKeepsUse(s, t, at, ok, p);
  }

  lemma ThreadKeepsInv(s: State, t: nat, ok: bool)
    requires t < |s.pc| && Inv(s)
    ensures Inv(ThreadStep(s, t, ok))
  {
    var s' := ThreadStep(s, t, ok);
    assert HoldsAsSeen(s, t) && Remembers(s, s.pc[t]);
    ThreadKeepsLock(s, t, ok);
    ThreadKeepsAdmin(s, t, ok);
    ThreadKeepsStatus(s, t, ok);
    ThreadKeepsPids(s, t, ok);
    ThreadKeepsMemory(s, t, ok);
    forall u: nat | u < |s'.pc| ensures HoldsAsSeen(s', u) && Remembers(s', s'.pc[u]) {
      if u != t {
        assert HoldsAsSeen(s, u) && Remembers(s, s.pc[u]);
        OthersKeepLock(s, s', t, u);
        OthersKeepMemory(s, s', s.pc[u]);
      }
    }
    forall p: nat | p < |s'.procs| ensures UsedOrDone(s', p) {
      ThreadKeepsUse(s, t, ok, p);
    }
  }

  lemma BeginKeepsInv(s: State, t: nat, call: Call)
    requires t < |s.pc| && s.pc[t].Idle? && Inv(s)
    ensures Inv(Goto(s, t, Entry(call)))
  {
    var s' := Goto(s, t, Entry(call));
    assert HoldsAsSeen(s, t);
    forall u: nat | u < |s'.pc| ensures HoldsAsSeen(s', u) && Remembers(s', s'.pc[u]) {
      assert HoldsAsSeen(s, u) && Remembers(s, s.pc[u]);
    }
    forall p: nat | p < |s'.procs| ensures UsedOrDone(s', p) {
      assert UsedOrDone(s, p);
    }
  }

  lemma ExitKeepsInv(s: State, p: nat)
    requires p < |s.procs| && Inv(s)
    ensures Inv(s.(procs := s.procs[p := Exited]))
  {
    var s' := s.(procs := s.procs[p := Exited]);
    forall u: nat | u < |s'.pc| ensures HoldsAsSeen(s', u) && Remembers(s', s'.pc[u]) {
      assert HoldsAsSeen(s, u) && Remembers(s, s.pc[u]);
      OthersKeepMemory(s, s', s.pc[u]);
    }
    forall q: nat | q < |s'.procs| ensures UsedOrDone(s', q) {
      assert UsedOrDone(s, q);
    }
  }

  /** Every event, whatever thread it belongs to, keeps the invariant. */
  lemma StepKeepsInv(s: State, e: Event)
    requires Inv(s)
    ensures Inv(Step(s, e))
  {
    match e
    case Begin(t, call) => if t < |s.pc| && s.pc[t].Idle? { BeginKeepsInv(s, t, call); }
    case Advance(t, ok) => if t < |s.pc| { ThreadKeepsInv(s, t, ok); }
    case ProcExit(p) => if p < |s.procs| { ExitKeepsInv(s, p); }
  }

  lemma {:induction false} RunKeepsInv(s: State, events: seq<Event>)
    requires Inv(s)
    ensures Inv(Run(s, events))
    decreases events
  {
    if events != [] {
      StepKeepsInv(s, events[0]);
      RunKeepsInv(Step(s, events[0]), events[1..]);
    }
  }

  ghost predicate Reachable(s: State) {
    exists threads: nat, events: seq<Event> :: s == Run(Init(threads), events)
  }

  lemma ReachableInv(s: State)
    requires Reachable(s)
    ensures Inv(s)
  {
    var threads: nat, events: seq<Event> :| s == Run(Init(threads), events);
    RunKeepsInv(Init(threads), events);
  }
}
