/**
 What one call does from its first step to its last, seen from outside, whatever the other threads do meanwhile.

 A call is watched through what it meets: whether the mutex was free, which process it launched, whether the process
 it polled was alive, how a wait ended, and that it forgot the live session or reset the USB device.  The theorems say
 which of these records, and no others, belong to each way a call can end.
 */
module DongleCalls {
  import opened Options
  import opened Dongle
  import opened DongleGuarantees

  datatype Seen =
    | Lock(free: bool)
    | Launch(p: nat)
    | Look(found: Option<nat>)
    | Poll(proc: Option<nat>, exited: bool)
    | Waited(p: nat, now: Proc)
    | Owns(owned: bool)
    | Release
    | Forget
    | ResetUsb
    | Error
    | Passed

  /** A record, latest entry last. */
  datatype Log = Nothing | Further(before: Log, last: Seen)
  {
    function And(seen: Seen): Log {
      if seen.Passed? then this else Further(this, seen)
    }
  }

  /** What thread `t` meets in one event. */
  function Observe(s: State, e: Event, t: nat): Seen {
    if e.Advance? && e.t == t && t < |s.pc| then Meet(s, Step(s, e), s.pc[t], e.ok) else Passed
  }

  /** What a thread at `pc` meets on its way from `s` to `s'`. */
  function Meet(s: State, s': State, pc: Pc, ok: bool): Seen {
    match pc
    case Capturing(at) => MeetInCapture(s, s', at)
    case Starting(at) => MeetInStart(s, s', at, ok)
    case Cleaning(_, at) => if at.ClnForget? then Forget else Passed
    case Checking(at) => MeetInReap(s, at)
    case Halting(at) => MeetInStop(s, s', at)
    case _ => Passed
  }

  function MeetLaunch(s: State, s': State): Seen {
    if |s'.procs| > |s.procs| then Launch(|s.procs|) else Error
  }

  function MeetPoll(s: State, proc: Option<nat>): Seen {
    Poll(proc, proc.Some? && proc.value < |s.procs| && s.procs[proc.value].Exited?)
  }

  function MeetRelease(s: State, s': State): Seen {
    if s.lock.Some? && s'.lock.None? then Release else Passed
  }

  /** A wait goes on as long as nothing changes. */
  function MeetWait(s: State, s': State, p: nat): Seen {
    if s' == s || p >= |s'.procs| then Passed else Waited(p, s'.procs[p])
  }

  function MeetInCapture(s: State, s': State, at: CapturePc): Seen {
    match at
    case CapTry => Lock(s.lock.None?)
    case CapSpawn => MeetLaunch(s, s')
    case CapWait(p) => MeetWait(s, s', p)
    case CapDrain(p) => MeetWait(s, s', p)
    case CapRelease => MeetRelease(s, s')
    case _ => Passed
  }

  function MeetInStart(s: State, s': State, at: StartPc, ok: bool): Seen {
    match at
    case LiveTry => Lock(s.lock.None?)
    case LiveBuild => if ok then Passed else Error
    case LiveSpawn(_) => MeetLaunch(s, s')
    case LiveMark(_) => if ok then Passed else Error
    case LiveProbe(_) => MeetPoll(s, s.liveProc)
    case LiveUsbReset => if ok then ResetUsb else Error
    case LiveRetry => Lock(s.lock.None?)
    case _ => Passed
  }

  function MeetInReap(s: State, at: ReapPc): Seen {
    match at
    case ReapRead => Look(s.liveProc)
    case ReapOwns(_) => Owns(s.owns)
    case ReapPoll(proc) => MeetPoll(s, proc)
    case _ => Passed
  }

  function MeetInStop(s: State, s': State, at: StopPc): Seen {
    match at
    case StopRead => Look(s.capProc)
    case StopPoll(proc) => MeetPoll(s, proc)
    case StopWait(p) => MeetWait(s, s', p)
    case StopOwns => Owns(s.owns)
    case StopTry => if s' == s then Passed else Lock(s.lock.None?)
    case StopRelease => MeetRelease(s, s')
  }

  /** The record `log` of thread `t`, continued over a run. */
  function Record(s: State, events: seq<Event>, t: nat, log: Log): Log
    decreases events
  {
    if events == [] then log else Record(Step(s, events[0]), events[1..], t, log.And(Observe(s, events[0], t)))
  }

  /** The call has ended: it leaves the admin section, or is done. */
  predicate Over(s: State, t: nat) {
    t < |s.pc| ==> s.pc[t].Idle? || s.pc[t].Leave?
  }

  /** The call does not end before the last event. */
  ghost predicate During(s: State, events: seq<Event>, t: nat)
    decreases events
  {
    events == [] || (!Over(s, t) && During(Step(s, events[0]), events[1..], t))
  }

  // ----- starting the live console

  /** Up to the launch of the only process, up to the retry after its death, and up to the launch of a second one. */
  function Once(p: nat): Log {
    Nothing.And(Lock(true)).And(Launch(p))
  }

  function Dead(p: nat): Log {
    Once(p).And(Poll(Some(p), true)).And(Forget).And(ResetUsb)
  }

  function Twice(p: nat, q: nat): Log {
    Dead(p).And(Lock(true)).And(Launch(q))
  }

  /** The process launched first was alive at its probe, or it was not, and the one launched second was. */
  ghost predicate StartedLog(log: Log) {
    || (exists p: nat :: log == Once(p).And(Poll(Some(p), false)))
    || (exists p: nat, q: nat :: p < q && log == Twice(p, q).And(Poll(Some(q), false)))
  }

  /** The first process died, and so did the second; or the dongle was taken between the two. */
  ghost predicate DiedLog(log: Log) {
    || (exists p: nat, q: nat :: p < q && log == Twice(p, q).And(Poll(Some(q), true)).And(Forget).And(Forget))
    || (exists p: nat :: log == Dead(p).And(Lock(false)).And(Forget))
  }

  /** An exception: the arguments are wrong, a launch or the reset fails, or a reader thread cannot be started. */
  ghost predicate ErrorLog(log: Log) {
    || log == Nothing.And(Lock(true)).And(Error).And(Forget)
    || (exists p: nat :: log == Once(p).And(Error).And(Forget))
    || (exists p: nat :: log == Once(p).And(Poll(Some(p), true)).And(Forget).And(Error).And(Forget))
    || (exists p: nat :: log == Dead(p).And(Lock(true)).And(Error).And(Forget))
    || (exists p: nat, q: nat :: p < q && log == Twice(p, q).And(Error).And(Forget))
  }

  /** What a start has met so far, point by point. */
  ghost predicate StartLogged(s: State, pc: Pc, log: Log) {
    match pc
    case Starting(at) => StarterLogged(s, at, log)
    case Cleaning(why, at) =>
      if at.ClnUnmark? || at.ClnOwn? || at.ClnRelease? then CleanerLogged(s, why, log)
      else CleanerLogged(s, why, log.And(Forget))
    case Leave(how) =>
      if how.Started? then StartedLog(log)
      else if how.Busy? then log == Nothing.And(Lock(false))
      else how.Raised? && (DiedLog(log) || ErrorLog(log))
    case _ => false
  }

  ghost predicate StarterLogged(s: State, at: StartPc, log: Log) {
    match at
    case LiveAdmin => log == Nothing
    case LiveTry => log == Nothing
    case LiveOwn => log == Nothing.And(Lock(true))
    case LiveBuild => log == Nothing.And(Lock(true))
    case LiveSpawn(second) =>
      if second then exists p: nat :: p < |s.procs| && log == Dead(p).And(Lock(true))
      else log == Nothing.And(Lock(true))
    case LiveRecord(r, second) => LaunchedLog(s, r, second, log)
    case LiveMark(second) => s.liveProc.Some? && LaunchedLog(s, s.liveProc.value, second, log)
    case LiveProbe(second) => s.liveProc.Some? && LaunchedLog(s, s.liveProc.value, second, log)
    case LiveUsbReset => exists p: nat :: p < |s.procs| && log == Once(p).And(Poll(Some(p), true)).And(Forget)
    case LiveRetry => exists p: nat :: p < |s.procs| && log == Dead(p)
    case LiveReown => exists p: nat :: p < |s.procs| && log == Dead(p).And(Lock(true))
  }

  /** The process just launched is `r`. */
  ghost predicate LaunchedLog(s: State, r: nat, second: bool, log: Log) {
    r < |s.procs| && if second then exists p: nat :: p < r && log == Twice(p, r) else log == Once(r)
  }

  /** What has been met once a clean-up has forgotten the session. */
  ghost predicate CleanerLogged(s: State, why: Why, log: Log) {
    match why
    case DeadFirst => exists p: nat :: p < |s.procs| && log == Once(p).And(Poll(Some(p), true)).And(Forget)
    case DeadSecond => exists p: nat, q: nat :: p < q && log == Twice(p, q).And(Poll(Some(q), true)).And(Forget)
    case Failed => DiedLog(log) || ErrorLog(log)
    case _ => false
  }

  /** Once the reset went through, the record is that of a dead process. */
  lemma ResetLogs(s: State, log: Log)
    requires StarterLogged(s, LiveUsbReset, log)
    ensures exists p: nat :: p < |s.procs| && log.And(ResetUsb) == Dead(p)
    ensures ErrorLog(log.And(Error).And(Forget))
  {
    var p: nat :| p < |s.procs| && log == Once(p).And(Poll(Some(p), true)).And(Forget);
    assert log.And(ResetUsb) == Dead(p);
  }

  lemma LaunchLogs(s: State, s': State, second: bool, log: Log)
    requires StarterLogged(s, LiveSpawn(second), log) && |s'.procs| == |s.procs| + 1
    ensures LaunchedLog(s', |s.procs|, second, log.And(Launch(|s.procs|)))
  {
    if second {
      var p: nat :| p < |s.procs| && log == Dead(p).And(Lock(true));
      assert log.And(Launch(|s.procs|)) == Twice(p, |s.procs|);
    }
  }

  lemma ErrorLogs(s: State, at: StartPc, log: Log)
    requires at.LiveBuild? || at.LiveSpawn? || at.LiveMark? || at.LiveUsbReset?
    requires StarterLogged(s, at, log)
    ensures ErrorLog(log.And(Error).And(Forget))
  {
  }

  lemma ProbeLogs(s: State, second: bool, log: Log)
    requires StarterLogged(s, LiveProbe(second), log)
    ensures var polled := log.And(MeetPoll(s, s.liveProc));
            if Alive(s, s.liveProc) then StartedLog(polled)
            else CleanerLogged(s, if second then DeadSecond else DeadFirst, polled.And(Forget))
  {
  }

  lemma RetryLogs(s: State, s': State, log: Log)
    requires StarterLogged(s, LiveRetry, log) && s'.procs == s.procs
    ensures StarterLogged(s', LiveReown, log.And(Lock(true)))
    ensures DiedLog(log.And(Lock(false)).And(Forget))
  {
  }

  /** Before the first launch, and after a launch, */
  lemma StarterLogsSimply(s: State, t: nat, at: StartPc, ok: bool, log: Log)
    requires t < |s.pc| && s.pc[t] == Starting(at) && StarterLogged(s, at, log)
    requires at.LiveAdmin? || at.LiveTry? || at.LiveOwn? || at.LiveReown? || at.LiveRecord?
    ensures var s' := StartStep(s, t, at, ok); StartLogged(s', s'.pc[t], log.And(MeetInStart(s, s', at, ok)))
  {
    hide Once, Dead, Twice, Alive;
  }

  /** and at the steps that can go wrong. */
  lemma StarterLogsRisk(s: State, t: nat, at: StartPc, ok: bool, log: Log)
    requires t < |s.pc| && s.pc[t] == Starting(at) && StarterLogged(s, at, log)
    requires at.LiveBuild? || at.LiveSpawn? || at.LiveMark? || at.LiveUsbReset?
    ensures var s' := StartStep(s, t, at, ok); StartLogged(s', s'.pc[t], log.And(MeetInStart(s, s', at, ok)))
  {
    hide Once, Dead, Twice, StartedLog, DiedLog, ErrorLog, Alive;
    ErrorLogs(s, at, log);
    var s' := StartStep(s, t, at, ok);
    match at {
      case LiveSpawn(second) => if ok { LaunchLogs(s, s', second, log); }
      case LiveUsbReset => ResetLogs(s, log);
      case _ =>
    }
  }

  lemma StarterLogs(s: State, t: nat, at: StartPc, ok: bool, log: Log)
    requires t < |s.pc| && s.pc[t] == Starting(at) && StarterLogged(s, at, log)
    ensures var s' := StartStep(s, t, at, ok); StartLogged(s', s'.pc[t], log.And(MeetInStart(s, s', at, ok)))
  {
    hide StarterLogged, StartedLog, DiedLog, ErrorLog, Alive;
    match at {
      case LiveProbe(second) => ProbeLogs(s, second, log);
      case LiveRetry => RetryLogs(s, StartStep(s, t, at, ok), log);
      case LiveAdmin => StarterLogsSimply(s, t, at, ok, log);
      case LiveTry => StarterLogsSimply(s, t, at, ok, log);
      case LiveOwn => StarterLogsSimply(s, t, at, ok, log);
      case LiveReown => StarterLogsSimply(s, t, at, ok, log);
      case LiveRecord(_, _) => StarterLogsSimply(s, t, at, ok, log);
      case _ => StarterLogsRisk(s, t, at, ok, log);
    }
  }

  lemma CleanerLogs(s: State, t: nat, why: Why, at: CleanupPc, ok: bool, log: Log)
    requires t < |s.pc| && s.pc[t] == Cleaning(why, at) && StartLogged(s, s.pc[t], log)
    ensures var s' := CleanupStep(s, t, why, at, ok);
            StartLogged(s', s'.pc[t], log.And(if at.ClnForget? then Forget else Passed))
  {
    hide Once, Dead, Twice, ErrorLog, Alive;
  }

  /** An event of another thread, or the end of a process, does not move `t`. */
  lemma OthersStay(s: State, e: Event, t: nat)
    requires Inv(s) && t < |s.pc| && (e.ProcExit? || e.t != t || (e.Begin? && !s.pc[t].Idle?))
    ensures var s' := Step(s, e);
            |s'.pc| == |s.pc| && s'.pc[t] == s.pc[t] && |s'.procs| >= |s.procs|
  {
    hide ThreadStep, AdminInv, StatusInv, MemoryInv, UseInv, KilledInv;
    if e.Advance? && e.t < |s.pc| {
      assert HoldsAsSeen(s, e.t);
      ThreadKeepsLock(s, e.t, e.ok);
    }
  }

  /** Outside the admin section no step touches the live session. */
  lemma OutsideKeepsSession(s: State, u: nat, ok: bool)
    requires u < |s.pc| && !InAdmin(s.pc[u])
    ensures ThreadStep(s, u, ok).liveProc == s.liveProc
  {
    hide CleanupStep, LeaveStep, Kill, Alive;
  }

  /** Nobody else touches the live session while `t` is in the admin section. */
  lemma SessionIsMine(s: State, e: Event, t: nat)
    requires Inv(s) && t < |s.pc| && InAdmin(s.pc[t])
    requires !(e.Advance? && e.t == t)
    ensures var s' := Step(s, e);
            |s'.pc| == |s.pc| && s'.pc[t] == s.pc[t] && s'.liveProc == s.liveProc && |s'.procs| >= |s.procs|
  {
    hide ThreadStep, AdminInv, StatusInv, MemoryInv, UseInv, KilledInv;
    OthersStay(s, e, t);
    assert HoldsAsSeen(s, t);
    if e.Advance? && e.t < |s.pc| {
      assert HoldsAsSeen(s, e.t);
      OutsideKeepsSession(s, e.t, e.ok);
    }
  }

  lemma StartLoggedAlong(s: State, s': State, pc: Pc, log: Log)
    requires StartLogged(s, pc, log) && s'.liveProc == s.liveProc && |s'.procs| >= |s.procs|
    ensures StartLogged(s', pc, log)
  {
    hide Once, Dead, Twice, StartedLog, DiedLog, ErrorLog;
  }

  /** Only the probe of a start leads to its success. */
  lemma StartedByProbe(s: State, t: nat, ok: bool)
    requires t < |s.pc| && !s.pc[t].Starting? && s.pc[t] != Leave(Started)
    ensures var s' := ThreadStep(s, t, ok); |s'.pc| == |s.pc| && s'.pc[t] != Leave(Started)
  {
    hide Alive, Kill, CaptureStep, StopStep;
    if s.pc[t].Capturing? {
      CaptureStays(s, t, s.pc[t].capture, ok);
    } else if s.pc[t].Halting? {
      StopStays(s, t, s.pc[t].stop, ok);
    }
  }

  lemma CaptureStays(s: State, t: nat, at: CapturePc, ok: bool)
    requires t < |s.pc|
    ensures var s' := CaptureStep(s, t, at, ok); |s'.pc| == |s.pc| && (s'.pc[t].Leave? ==> s' == s)
  {
    hide Alive, Kill;
  }

  lemma StopStays(s: State, t: nat, at: StopPc, ok: bool)
    requires t < |s.pc|
    ensures var s' := StopStep(s, t, at, ok); |s'.pc| == |s.pc| && (s'.pc[t].Leave? ==> s' == s)
  {
    hide Alive, Kill;
  }

  lemma AliveByProbe(s: State, t: nat, at: StartPc, ok: bool)
    requires t < |s.pc| && s.pc[t] == Starting(at) && StartStep(s, t, at, ok).pc[t] == Leave(Started)
    ensures s.liveProc.Some? && s.liveProc.value < |s.procs| && !s.procs[s.liveProc.value].Exited?
    ensures StartStep(s, t, at, ok) == s.(pc := s.pc[t := Leave(Started)])
  {
  }

  /** The step with which a start succeeds finds the process of the live session there, not exited. */
  lemma StartedIsAlive(s: State, e: Event, t: nat)
    requires Reachable(s) && t < |s.pc| && s.pc[t] != Leave(Started)
    requires t < |Step(s, e).pc| && Step(s, e).pc[t] == Leave(Started)
    ensures s.liveProc.Some? && s.liveProc.value < |s.procs| && !s.procs[s.liveProc.value].Exited?
    ensures Step(s, e) == s.(pc := s.pc[t := Leave(Started)])
  {
    hide StartStep, CleanupStep, CaptureStep, ReapStep, StopStep, LeaveStep, Inv;
    ReachableInv(s);
    if e.ProcExit? || e.t != t {
      OthersStay(s, e, t);
    } else if s.pc[t].Starting? {
      AliveByProbe(s, t, s.pc[t].start, e.ok);
    } else if e.Advance? {
      StartedByProbe(s, t, e.ok);
    }
  }

  // ----- looking after the live session, and stopping it

  /** What a reaper has met so far: it looks, and cleans up only after a process that it found dead. */
  ghost predicate ReapLogged(pc: Pc, log: Log) {
    match pc
    case Checking(at) => (
      match at
      case StopLiveAdmin => false
      case ReapRead => log == Nothing
      case ReapOwns(proc) => log == Nothing.And(Look(proc))
      case ReapPoll(proc) => log == Nothing.And(Look(proc)).And(Owns(true))
      case ReapAdmin(seen) => log == FoundDead(seen))
    case Cleaning(why, at) => why.Reaping? && CleaningLog(at, FoundDead(why.seen), log)
    case Leave(how) => how.Reaped? && ReapedLog(log)
    case Idle => LeftAloneLog(log)
    case _ => false
  }

  /** A clean-up has met nothing more than that it forgot the session. */
  predicate CleaningLog(at: CleanupPc, before: Log, log: Log) {
    log == if at.ClnUnmark? || at.ClnOwn? || at.ClnRelease? then before.And(Forget) else before
  }

  function FoundDead(p: nat): Log {
    Nothing.And(Look(Some(p))).And(Owns(true)).And(Poll(Some(p), true))
  }

  /** The live session's process has exited, and the session is cleaned up. */
  ghost predicate ReapedLog(log: Log) {
    exists p: nat :: log == FoundDead(p).And(Forget)
  }

  /** There is no live session, or its process has not exited. */
  ghost predicate LeftAloneLog(log: Log) {
    exists proc :: NotReaped(proc, log)
  }

  predicate NotReaped(proc: Option<nat>, log: Log) {
    || log == Nothing.And(Look(proc)).And(Owns(false))
    || log == Nothing.And(Look(proc)).And(Owns(true)).And(Poll(proc, false))
  }

  /** What `stop_live` has met so far: it cleans up, whatever it finds. */
  predicate StopLiveLogged(pc: Pc, log: Log) {
    match pc
    case Checking(at) => at.StopLiveAdmin? && log == Nothing
    case Cleaning(why, at) => why.Stopping? && CleaningLog(at, Nothing, log)
    case Leave(how) => how.Stopped? && log == Nothing.And(Forget)
    case _ => false
  }

  lemma CheckerLogs(s: State, t: nat, at: ReapPc, log: Log)
    requires t < |s.pc| && s.pc[t] == Checking(at)
    requires Remembers(s, s.pc[t])
    ensures var pc' := ReapStep(s, t, at).pc[t];
            && (ReapLogged(s.pc[t], log) ==> ReapLogged(pc', log.And(MeetInReap(s, at))))
            && (StopLiveLogged(s.pc[t], log) ==> StopLiveLogged(pc', log.And(MeetInReap(s, at))))
  {
    hide FoundDead;
    if at.ReapPoll? && ReapLogged(s.pc[t], log) {
      PollLogs(s, t, at.proc, log);
    } else if at.ReapOwns? && ReapLogged(s.pc[t], log) {
      assert !s.owns ==> NotReaped(at.proc, log.And(Owns(false)));
    }
  }

  lemma PollLogs(s: State, t: nat, proc: Option<nat>, log: Log)
    requires t < |s.pc| && s.pc[t] == Checking(ReapPoll(proc)) && Remembers(s, s.pc[t])
    requires ReapLogged(s.pc[t], log)
    ensures ReapLogged(ReapStep(s, t, ReapPoll(proc)).pc[t], log.And(MeetPoll(s, proc)))
  {
    if proc.Some? && s.procs[proc.value].Exited? {
      assert log.And(MeetPoll(s, proc)) == FoundDead(proc.value);
    } else {
      assert NotReaped(proc, log.And(MeetPoll(s, proc)));
    }
  }

  lemma SweeperLogs(s: State, t: nat, why: Why, at: CleanupPc, ok: bool, log: Log)
    requires t < |s.pc| && s.pc[t] == Cleaning(why, at)
    ensures var pc', log' := CleanupStep(s, t, why, at, ok).pc[t], log.And(if at.ClnForget? then Forget else Passed);
            && (ReapLogged(s.pc[t], log) ==> ReapLogged(pc', log'))
            && (StopLiveLogged(s.pc[t], log) ==> StopLiveLogged(pc', log'))
  {
    hide FoundDead, Alive, Kill;
  }

  // ----- a one-shot run

  ghost predicate CaptureLogged(s: State, pc: Pc, log: Log) {
    match pc
    case Capturing(at) => (
      match at
      case CapTry => log == Nothing
      case CapMark => log == Nothing.And(Lock(true))
      case CapSpawn => log == Nothing.And(Lock(true))
      case CapRecord(p) => log == Once(p) && p < |s.procs|
      case CapWait(p) => log == Once(p) && p < |s.procs|
      case CapDrain(p) => log == Once(p).And(Waited(p, Doomed)) || log == Once(p).And(Waited(p, Exited))
      case _ => CapturedLog(log))
    case Idle => log == Nothing.And(Lock(false)) || (log.Further? && log.last == Release && CapturedLog(log.before))
    case _ => false
  }

  /** The launch failed; or the process has exited, by itself or after it was killed at the timeout. */
  ghost predicate CapturedLog(log: Log) {
    || log == Nothing.And(Lock(true)).And(Error)
    || exists p: nat :: log == Once(p).And(Waited(p, Exited))
                     || log == Once(p).And(Waited(p, Doomed)).And(Waited(p, Exited))
                     || log == Once(p).And(Waited(p, Exited)).And(Waited(p, Exited))
  }

  // ----- stopping a one-shot run

  ghost predicate StopLogged(s: State, pc: Pc, log: Log) {
    match pc
    case Halting(at) => (
      match at
      case StopRead => log == Nothing
      case StopPoll(proc) => log == Nothing.And(Look(proc)) && (proc.Some? ==> proc.value < |s.procs|)
      case StopWait(p) => log == Nothing.And(Look(Some(p))).And(Poll(Some(p), false)) && p < |s.procs|
      case StopOwns => DoneLog(log)
      case StopTry => log.Further? && log.last == Owns(false) && DoneLog(log.before)
      case StopRelease => TriedLog(log, true))
    case Idle => BarrierLog(log) || (log.Further? && log.last == Owns(true) && DoneLog(log.before))
    case _ => false
  }

  /** There was no one-shot run, or its process has exited or been sent SIGKILL. */
  ghost predicate DoneLog(log: Log) {
    || log == Nothing.And(Look(None)).And(Poll(None, false))
    || exists p: nat :: ProcessDoneLog(p, log)
  }

  predicate ProcessDoneLog(p: nat, log: Log) {
    || log == Nothing.And(Look(Some(p))).And(Poll(Some(p), true))
    || log == Nothing.And(Look(Some(p))).And(Poll(Some(p), false)).And(Waited(p, Exited))
    || log == Nothing.And(Look(Some(p))).And(Poll(Some(p), false)).And(Waited(p, Doomed))
  }

  /** The live console does not have the mutex, so the stop has waited for it, and got it or not. */
  ghost predicate TriedLog(log: Log, free: bool) {
    && log.Further? && log.last == Lock(free)
    && log.before.Further? && log.before.last == Owns(false) && DoneLog(log.before.before)
  }

  /** It got the mutex and gave it back, or gave up waiting. */
  ghost predicate BarrierLog(log: Log) {
    TriedLog(log, false) || (log.Further? && log.last == Release && TriedLog(log.before, true))
  }

  lemma CapturerLogs(s: State, t: nat, at: CapturePc, ok: bool, log: Log)
    requires t < |s.pc| && s.pc[t] == Capturing(at) && Remembers(s, s.pc[t]) && CaptureLogged(s, s.pc[t], log)
    requires at.CapRelease? ==> s.lock.Some?
    ensures var s' := CaptureStep(s, t, at, ok);
            CaptureLogged(s', s'.pc[t], log.And(MeetInCapture(s, s', at)))
  {
  }

  lemma StopperLogs(s: State, t: nat, at: StopPc, ok: bool, log: Log)
    requires t < |s.pc| && s.pc[t] == Halting(at) && PidsInRange(s) && StopLogged(s, s.pc[t], log)
    requires at.StopRelease? ==> s.lock.Some?
    ensures var s' := StopStep(s, t, at, ok);
            StopLogged(s', s'.pc[t], log.And(MeetInStop(s, s', at)))
  {
    var met := log.And(MeetInStop(s, StopStep(s, t, at, ok), at));
    match at {
      case StopPoll(proc) => assert proc.Some? && !Alive(s, proc) ==> ProcessDoneLog(proc.value, met);
      case StopWait(p) => assert !ok || !Alive(s, Some(p)) ==> ProcessDoneLog(p, met);
      case _ =>
    }
  }

  // ----- every call

  /** What thread `t`, at `pc`, has met so far in a call. */
  ghost predicate Logged(call: Call, s: State, pc: Pc, log: Log) {
    match call
    case RunCapture => CaptureLogged(s, pc, log)
    case StartLive => StartLogged(s, pc, log)
    case StopLive => StopLiveLogged(pc, log)
    case Reap => ReapLogged(pc, log)
    case Stop => StopLogged(s, pc, log)
  }

  lemma OwnLogs(call: Call, s: State, t: nat, ok: bool, log: Log)
    requires Inv(s) && t < |s.pc| && !Over(s, t) && Logged(call, s, s.pc[t], log)
    ensures var s' := ThreadStep(s, t, ok);
            |s'.pc| == |s.pc| && Logged(call, s', s'.pc[t], log.And(Meet(s, s', s.pc[t], ok)))
  {
    hide StarterLogged, CleanerLogged, StartStep, CleanupStep, ReapStep, StopStep, CaptureStep, FoundDead;
    assert HoldsAsSeen(s, t) && Remembers(s, s.pc[t]);
    ThreadKeepsLock(s, t, ok);
    match s.pc[t] {
      case Starting(at) => StarterLogs(s, t, at, ok, log);
      case Cleaning(why, at) =>
        SweeperLogs(s, t, why, at, ok, log);
        if call.StartLive? {
          CleanerLogs(s, t, why, at, ok, log);
        }
      case Capturing(at) => CapturerLogs(s, t, at, ok, log);
      case Checking(at) => CheckerLogs(s, t, at, log);
      case Halting(at) => StopperLogs(s, t, at, ok, log);
      case _ =>
    }
  }

  /** A record does not depend on what the other threads do. */
  lemma OthersLog(call: Call, s: State, e: Event, t: nat, log: Log)
    requires Inv(s) && t < |s.pc| && !Over(s, t) && Logged(call, s, s.pc[t], log)
    requires !(e.Advance? && e.t == t)
    ensures var s' := Step(s, e); t < |s'.pc| && Logged(call, s', s'.pc[t], log)
  {
    hide Inv, Step, StarterLogged, CleanerLogged, FoundDead, Once, CapturedLog, DoneLog;
    OthersStay(s, e, t);
    if call.StartLive? {
      StartAlong(s, e, t, log);
    }
  }

  lemma StartAlong(s: State, e: Event, t: nat, log: Log)
    requires Inv(s) && t < |s.pc| && !Over(s, t) && StartLogged(s, s.pc[t], log)
    requires !(e.Advance? && e.t == t)
    ensures var s' := Step(s, e); t < |s'.pc| && StartLogged(s', s'.pc[t], log)
  {
    hide Inv, Step, CleanerLogged, Once, Dead, Twice;
    OthersStay(s, e, t);
    if s.pc[t] != Starting(LiveAdmin) {
      SessionIsMine(s, e, t);
      StartLoggedAlong(s, Step(s, e), s.pc[t], log);
    }
  }

  /** Any event, of this thread or of another one, continues the record. */
  lemma StepLogs(call: Call, s: State, e: Event, t: nat, log: Log)
    requires Inv(s) && t < |s.pc| && !Over(s, t) && Logged(call, s, s.pc[t], log)
    ensures var s' := Step(s, e);
            t < |s'.pc| && Logged(call, s', s'.pc[t], log.And(Observe(s, e, t)))
  {
    hide Inv, Logged, ThreadStep, Meet;
    if e.Advance? && e.t == t {
      OwnLogs(call, s, t, e.ok, log);
    } else {
      OthersLog(call, s, e, t, log);
    }
  }

  lemma {:induction false} CallRecord(call: Call, s: State, events: seq<Event>, t: nat, log: Log)
    requires Inv(s) && t < |s.pc| && Logged(call, s, s.pc[t], log) && During(s, events, t)
    ensures var s' := Run(s, events);
            t < |s'.pc| && Logged(call, s', s'.pc[t], Record(s, events, t, log))
    decreases events
  {
    hide Logged, Step, Observe, Inv;
    if events != [] {
      StepLogs(call, s, events[0], t, log);
      StepKeepsInv(s, events[0]);
      CallRecord(call, Step(s, events[0]), events[1..], t, log.And(Observe(s, events[0], t)));
    }
  }

  /** The record of a call since it began. */
  ghost predicate Called(call: Call, s: State, events: seq<Event>, t: nat) {
    Reachable(s) && t < |s.pc| && s.pc[t] == Entry(call) && During(s, events, t)
  }

  lemma CalledLogs(call: Call, s: State, events: seq<Event>, t: nat)
    requires Called(call, s, events, t)
    ensures var s' := Run(s, events);
            t < |s'.pc| && Logged(call, s', s'.pc[t], Record(s, events, t, Nothing))
  {
    hide Run, Record, During, Inv;
    ReachableInv(s);
    CallRecord(call, s, events, t, Nothing);
  }

  /** A record of a success ends with a process found alive, and no record of a start under way does. */
  lemma SuccessEndsAlive(log: Log)
    requires StartedLog(log)
    ensures log.Further? && log.last.Poll? && !log.last.exited
  {
  }

  lemma FailureEndsForgotten(log: Log)
    requires DiedLog(log) || ErrorLog(log)
    ensures log.Further? && log.last == Forget && log.before.Further?
  {
  }

  lemma UnderWay(s: State, at: StartPc, log: Log)
    requires StarterLogged(s, at, log)
    ensures log.Further? ==> !log.last.Poll? && log != Nothing.And(Lock(false))
  {
  }

  lemma CleaningUp(s: State, why: Why, log: Log)
    requires CleanerLogged(s, why, log)
    ensures log.Further? && log.last == Forget && log.before.Further?
    ensures log.before != Nothing.And(Lock(false)) && (log.before.last.Poll? ==> log.before.last.exited)
  {
  }

  /** A record tells how the start has ended, and that it has. */
  lemma Outcome(s: State, t: nat, log: Log)
    requires t < |s.pc| && StartLogged(s, s.pc[t], log)
    ensures s.pc[t] == Leave(Started) <==> StartedLog(log)
    ensures s.pc[t] == Leave(Busy) <==> log == Nothing.And(Lock(false))
    ensures s.pc[t] == Leave(Raised) ==> DiedLog(log) || ErrorLog(log)
    ensures Over(s, t) ==> s.pc[t] in {Leave(Started), Leave(Busy), Leave(Raised)}
  {
    hide StartedLog, DiedLog, ErrorLog, StarterLogged, CleanerLogged;
    if StartedLog(log) {
      SuccessEndsAlive(log);
    }
    match s.pc[t] {
      case Starting(at) => UnderWay(s, at, log);
      case Cleaning(why, at) =>
        CleaningUp(s, why, if at.ClnUnmark? || at.ClnOwn? || at.ClnRelease? then log else log.And(Forget));
      case Leave(how) => if how.Raised? { FailureEndsForgotten(log); }
    }
  }

  /** How a start of the live console ends, over every interleaving: it is refused exactly if the mutex was taken; it
      succeeds exactly if the process it launched was alive at its probe, or was dead and after one clean-up and one
      reset of the device the second was alive; otherwise it raises, and then both processes were dead, or the dongle
      was taken during the retry, or a step of it failed.  In particular nothing is launched more than twice. */
  lemma StartMeets(s: State, events: seq<Event>, t: nat)
    requires Called(StartLive, s, events, t)
    ensures var s', log := Run(s, events), Record(s, events, t, Nothing);
            && t < |s'.pc|
            && (s'.pc[t] == Leave(Started) <==> StartedLog(log))
            && (s'.pc[t] == Leave(Busy) <==> log == Nothing.And(Lock(false)))
            && (s'.pc[t] == Leave(Raised) ==> DiedLog(log) || ErrorLog(log))
            && (Over(s', t) ==> s'.pc[t] in {Leave(Started), Leave(Busy), Leave(Raised)})
  {
    hide Run, Record, Called, CleanerLogged;
    CalledLogs(StartLive, s, events, t);
    Outcome(Run(s, events), t, Record(s, events, t, Nothing));
  }

  /** A reaper cleans up exactly if it found the session's process dead while the live console had the mutex. */
  lemma ReapMeets(s: State, events: seq<Event>, t: nat)
    requires Called(Reap, s, events, t)
    ensures var s', log := Run(s, events), Record(s, events, t, Nothing);
            && t < |s'.pc|
            && (s'.pc[t] == Leave(Reaped) ==> ReapedLog(log))
            && (s'.pc[t] == Idle ==> LeftAloneLog(log))
            && (Over(s', t) ==> s'.pc[t] in {Leave(Reaped), Idle})
  {
    hide Run, Record, Called;
    CalledLogs(Reap, s, events, t);
  }

  /** `stop_live` cleans up once, whatever it finds. */
  lemma StopLiveMeets(s: State, events: seq<Event>, t: nat)
    requires Called(StopLive, s, events, t)
    ensures var s', log := Run(s, events), Record(s, events, t, Nothing);
            t < |s'.pc| && (Over(s', t) ==> s'.pc[t] == Leave(Stopped) && log == Nothing.And(Forget))
  {
    hide Run, Record, Called;
    CalledLogs(StopLive, s, events, t);
  }

  /** A one-shot run is refused, or fails to launch, or ends after its process has exited; and it gives the mutex
      back. */
  lemma CaptureMeets(s: State, events: seq<Event>, t: nat)
    requires Called(RunCapture, s, events, t)
    ensures var s', log := Run(s, events), Record(s, events, t, Nothing);
            && t < |s'.pc|
            && (Over(s', t) ==>
                  && s'.pc[t] == Idle
                  && (log == Nothing.And(Lock(false))
                      || (log.Further? && log.last == Release && CapturedLog(log.before))))
  {
    hide Run, Record, Called;
    CalledLogs(RunCapture, s, events, t);
  }

  /** `stop` sees the one-shot run's process gone, or sends it SIGKILL; then it finds the live console in possession of
      the mutex, or waits for the mutex and gives it back, or gives up waiting. */
  lemma StopMeets(s: State, events: seq<Event>, t: nat)
    requires Called(Stop, s, events, t)
    ensures var s', log := Run(s, events), Record(s, events, t, Nothing);
            && t < |s'.pc|
            && (Over(s', t) ==> s'.pc[t] == Idle)
            && (s'.pc[t] == Idle ==>
                  BarrierLog(log) || (log.Further? && log.last == Owns(true) && DoneLog(log.before)))
  {
    hide Run, Record, Called;
    CalledLogs(Stop, s, events, t);
  }

  /** The wait of a stop for the mutex ends with the mutex as soon as that is free, and without it when time is up. */
  lemma BarrierTakes(s: State, t: nat, ok: bool)
    requires t < |s.pc| && s.pc[t] == Halting(StopTry)
    ensures Step(s, Advance(t, ok)) ==
            if s.lock == None then s.(lock := Some(Barrier(t)), pc := s.pc[t := Halting(StopRelease)])
            else if ok then s
            else s.(pc := s.pc[t := Idle])
  {
  }

  /** A start that went through and `stop_live` look after the session once more before they answer. */
  lemma AfterLeaving(s: State, t: nat, ok: bool)
    requires Reachable(s) && t < |s.pc| && s.pc[t].Leave?
    ensures var s' := Step(s, Advance(t, ok));
            s' == s.(admin := None, pc := s.pc[t := if s.pc[t] in {Leave(Started), Leave(Stopped)} then Entry(Reap)
                                                    else Idle])
  {
    ReachableInv(s);
    assert HoldsAsSeen(s, t);
  }

  // ----- processes and mutexes, step by step

  /** The process that a thread at `pc` waits for, and kills when its time is up. */
  function Awaited(pc: Pc): Option<nat> {
    match pc
    case Capturing(at) => if at.CapWait? then Some(at.p) else None
    case Cleaning(_, at) => if at.ClnWait? then Some(at.p) else None
    case Halting(at) => if at.StopWait? then Some(at.p) else None
    case _ => None
  }

  /** A process exits by itself alone, and is killed by nobody but a thread that has waited too long for it. */
  predicate ProcAfter(s: State, s': State, t: nat, ok: bool, p: nat)
    requires t < |s.pc| && p < |s.procs|
  {
    && p < |s'.procs|
    && s'.procs[p] == if !ok && Awaited(s.pc[t]) == Some(p) && s.procs[p].Running? then Doomed else s.procs[p]
  }

  lemma CaptureProcs(s: State, t: nat, at: CapturePc, ok: bool, p: nat)
    requires t < |s.pc| && s.pc[t] == Capturing(at) && p < |s.procs|
    ensures ProcAfter(s, CaptureStep(s, t, at, ok), t, ok, p)
  {
  }

  lemma StartProcs(s: State, t: nat, at: StartPc, ok: bool, p: nat)
    requires t < |s.pc| && s.pc[t] == Starting(at) && p < |s.procs|
    ensures ProcAfter(s, StartStep(s, t, at, ok), t, ok, p)
  {
    hide Alive;
  }

  lemma CleanupProcs(s: State, t: nat, why: Why, at: CleanupPc, ok: bool, p: nat)
    requires t < |s.pc| && s.pc[t] == Cleaning(why, at) && p < |s.procs|
    ensures ProcAfter(s, CleanupStep(s, t, why, at, ok), t, ok, p)
  {
  }

  lemma StopProcs(s: State, t: nat, at: StopPc, ok: bool, p: nat)
    requires t < |s.pc| && s.pc[t] == Halting(at) && p < |s.procs|
    ensures ProcAfter(s, StopStep(s, t, at, ok), t, ok, p)
  {
  }

  lemma ProcsExactly(s: State, t: nat, ok: bool, p: nat)
    requires t < |s.pc| && p < |s.procs|
    ensures ProcAfter(s, Step(s, Advance(t, ok)), t, ok, p)
  {
    hide ProcAfter, CaptureStep, StartStep, CleanupStep, StopStep;
    match s.pc[t] {
      case Capturing(at) => CaptureProcs(s, t, at, ok, p);
      case Starting(at) => StartProcs(s, t, at, ok, p);
      case Cleaning(why, at) => CleanupProcs(s, t, why, at, ok, p);
      case Halting(at) => StopProcs(s, t, at, ok, p);
      case _ => NoProcs(s, t, ok, p);
    }
  }

  lemma NoProcs(s: State, t: nat, ok: bool, p: nat)
    requires t < |s.pc| && p < |s.procs| && (s.pc[t].Idle? || s.pc[t].Leave? || s.pc[t].Checking?)
    ensures ProcAfter(s, Step(s, Advance(t, ok)), t, ok, p)
  {
  }

  /** The thread is about to release a mutex that is not its own. */
  predicate ReleasesForeign(s: State, t: nat)
    requires t < |s.pc|
  {
    match s.pc[t]
    case Capturing(at) => at.CapRelease? && s.lock != Some(Capture(t))
    case Cleaning(_, at) => at.ClnRelease? && s.lock != Some(Live)
    case Halting(at) => at.StopRelease? && s.lock != Some(Barrier(t))
    case Leave(_) => s.admin != Some(t)
    case _ => false
  }

  /** The alarm goes off at every release of a foreign mutex, in any state. */
  lemma FaultExactly(s: State, t: nat, ok: bool)
    requires t < |s.pc|
    ensures Step(s, Advance(t, ok)).fault <==> s.fault || ReleasesForeign(s, t)
  {
    hide CaptureStep, StartStep, CleanupStep, StopStep;
    match s.pc[t] {
      case Capturing(at) => CaptureFault(s, t, at, ok);
      case Starting(at) => StartFault(s, t, at, ok);
      case Cleaning(why, at) => CleanupFault(s, t, why, at, ok);
      case Halting(at) => StopFault(s, t, at, ok);
      case _ =>
    }
  }

  lemma CaptureFault(s: State, t: nat, at: CapturePc, ok: bool)
    requires t < |s.pc| && s.pc[t] == Capturing(at)
    ensures CaptureStep(s, t, at, ok).fault <==> s.fault || ReleasesForeign(s, t)
  {
    hide Alive, Kill;
  }

  lemma StartFault(s: State, t: nat, at: StartPc, ok: bool)
    requires t < |s.pc| && s.pc[t] == Starting(at)
    ensures StartStep(s, t, at, ok).fault <==> s.fault || ReleasesForeign(s, t)
  {
    hide Alive;
  }

  lemma CleanupFault(s: State, t: nat, why: Why, at: CleanupPc, ok: bool)
    requires t < |s.pc| && s.pc[t] == Cleaning(why, at)
    ensures CleanupStep(s, t, why, at, ok).fault <==> s.fault || ReleasesForeign(s, t)
  {
    hide Alive, Kill;
  }

  lemma StopFault(s: State, t: nat, at: StopPc, ok: bool)
    requires t < |s.pc| && s.pc[t] == Halting(at)
    ensures StopStep(s, t, at, ok).fault <==> s.fault || ReleasesForeign(s, t)
  {
    hide Alive, Kill;
  }

  // ----- what the status shows, and what `stop` finds

  /** The recorded process is that of the one-shot run under way. */
  ghost predicate RecordInv(s: State) {
    && (forall u: nat :: u < |s.pc| ==> RecordedAt(s, u))
    && (s.capProc.Some? ==>
          s.lock.Some? && s.lock.value.Capture? && s.lock.value.t < |s.pc| && UsesRecorded(s, s.pc[s.lock.value.t]))
  }

  predicate RecordedAt(s: State, u: nat)
    requires u < |s.pc|
  {
    match s.pc[u]
    case Capturing(at) => at.CapWait? || at.CapDrain? ==> s.capProc == Some(at.p)
    case _ => true
  }

  predicate UsesRecorded(s: State, pc: Pc) {
    match pc
    case Capturing(at) => at.CapForget? || ((at.CapWait? || at.CapDrain?) && s.capProc == Some(at.p))
    case _ => false
  }

  /** The live session is shown from its marking on. */
  predicate LiveShownInv(s: State) {
    s.liveProc.Some? && !s.active.LiveMode? ==>
      s.admin.Some? && s.admin.value < |s.pc| && s.pc[s.admin.value].Starting?
      && s.pc[s.admin.value].start.LiveMark?
  }

  lemma CapturerRecords(s: State, t: nat, at: CapturePc, ok: bool)
    requires t < |s.pc| && s.pc[t] == Capturing(at) && RecordedAt(s, t) && HoldsAsSeen(s, t)
    requires s.lock == Some(Capture(t)) && s.capProc.Some? ==> UsesRecorded(s, s.pc[t])
    ensures var s' := CaptureStep(s, t, at, ok);
            && |s'.pc| == |s.pc| && RecordedAt(s', t)
            && (s'.capProc == s.capProc || s.lock == Some(Capture(t)))
            && (s.lock == Some(Capture(t)) && s'.capProc.Some? ==>
                  s'.lock == s.lock && UsesRecorded(s', s'.pc[t]))
  {
    hide Kill, Alive;
  }

  /** A step that leaves the one-shot run's record alone, and does not enter one. */
  predicate Unrecorded(s: State, s': State, t: nat)
    requires t < |s.pc|
  {
    s'.capProc == s.capProc && |s'.pc| == |s.pc| && !s'.pc[t].Capturing?
  }

  lemma StartDoesNotRecord(s: State, t: nat, at: StartPc, ok: bool)
    requires t < |s.pc| && s.pc[t] == Starting(at)
    ensures Unrecorded(s, StartStep(s, t, at, ok), t)
  {
    hide Alive;
  }

  lemma StopDoesNotRecord(s: State, t: nat, at: StopPc, ok: bool)
    requires t < |s.pc| && s.pc[t] == Halting(at)
    ensures Unrecorded(s, StopStep(s, t, at, ok), t)
  {
    hide Alive, Kill;
  }

  lemma CleanupDoesNotRecord(s: State, t: nat, why: Why, at: CleanupPc, ok: bool)
    requires t < |s.pc| && s.pc[t] == Cleaning(why, at)
    ensures Unrecorded(s, CleanupStep(s, t, why, at, ok), t)
  {
    hide Alive, Kill;
  }

  lemma OthersDoNotRecord(s: State, t: nat, ok: bool)
    requires t < |s.pc| && !s.pc[t].Capturing?
    ensures Unrecorded(s, ThreadStep(s, t, ok), t)
  {
    hide Alive, StartStep, StopStep, CleanupStep;
    match s.pc[t] {
      case Starting(at) => StartDoesNotRecord(s, t, at, ok);
      case Halting(at) => StopDoesNotRecord(s, t, at, ok);
      case Cleaning(why, at) => CleanupDoesNotRecord(s, t, why, at, ok);
      case _ =>
    }
  }

  lemma ThreadKeepsRecord(s: State, t: nat, ok: bool)
    requires Inv(s) && RecordInv(s) && t < |s.pc|
    ensures RecordInv(ThreadStep(s, t, ok))
  {
    hide CaptureStep, StartStep, StopStep, ReapStep, LeaveStep, CleanupStep, AdminInv, UseInv, KilledInv,
      MemoryInv, StatusInv, PidsInRange;
    assert HoldsAsSeen(s, t) && RecordedAt(s, t);
    ThreadKeepsLock(s, t, ok);
    if s.pc[t].Capturing? {
      CapturerRecords(s, t, s.pc[t].capture, ok);
    } else {
      OthersDoNotRecord(s, t, ok);
    }
    var s' := ThreadStep(s, t, ok);
    forall u: nat | u < |s'.pc| ensures RecordedAt(s', u) {
      assert RecordedAt(s, u) && HoldsAsSeen(s, u);
    }
  }

  lemma StepKeepsRecord(s: State, e: Event)
    requires Inv(s) && RecordInv(s)
    ensures RecordInv(Step(s, e))
  {
    hide ThreadStep;
    match e
    case Advance(t, ok) => if t < |s.pc| { ThreadKeepsRecord(s, t, ok); }
    case Begin(t, call) => if t < |s.pc| && s.pc[t].Idle? { BeginKeepsRecord(s, t, call); }
    case ProcExit(p) => if p < |s.procs| { ExitKeepsRecord(s, p); }
  }

  lemma BeginKeepsRecord(s: State, t: nat, call: Call)
    requires Inv(s) && RecordInv(s) && t < |s.pc| && s.pc[t].Idle?
    ensures RecordInv(Goto(s, t, Entry(call)))
  {
    var s' := Goto(s, t, Entry(call));
    forall u: nat | u < |s'.pc| ensures RecordedAt(s', u) {
      assert RecordedAt(s, u);
    }
  }

  lemma ExitKeepsRecord(s: State, p: nat)
    requires RecordInv(s) && p < |s.procs|
    ensures RecordInv(s.(procs := s.procs[p := Exited]))
  {
    var s' := s.(procs := s.procs[p := Exited]);
    forall u: nat | u < |s'.pc| ensures RecordedAt(s', u) {
      assert RecordedAt(s, u);
    }
  }

  lemma {:induction false} RunKeepsRecord(s: State, events: seq<Event>)
    requires Inv(s) && RecordInv(s)
    ensures RecordInv(Run(s, events))
    decreases events
  {
    hide Step, Inv, RecordInv;
    if events != [] {
      StepKeepsInv(s, events[0]);
      StepKeepsRecord(s, events[0]);
      RunKeepsRecord(Step(s, events[0]), events[1..]);
    }
  }

  /** A `stop` finds the process of the one-shot run for as long as that waits for it, and no other process ever. */
  lemma StopFindsCapture(s: State, u: nat)
    requires Reachable(s) && u < |s.pc|
    ensures s.pc[u].Capturing? && (s.pc[u].capture.CapWait? || s.pc[u].capture.CapDrain?) ==>
              s.capProc == Some(s.pc[u].capture.p)
    ensures s.capProc.Some? ==>
              s.lock.Some? && s.lock.value.Capture? && s.lock.value.t < |s.pc|
              && UsesRecorded(s, s.pc[s.lock.value.t])
  {
    hide Inv;
    var threads: nat, events: seq<Event> :| s == Run(Init(threads), events);
    InitInv(threads);
    RunKeepsRecord(Init(threads), events);
    assert RecordedAt(s, u);
  }

  lemma InitInv(threads: nat)
    ensures Inv(Init(threads)) && RecordInv(Init(threads))
  {
  }

  // ----- the status shown

  /** The steps that change what the status shows. */
  function Shows(pc: Pc, before: Mode): Mode {
    match pc
    case Capturing(at) => if at.CapMark? then CaptureMode else if at.CapUnmark? then Off else before
    case Starting(at) => if at.LiveMark? then LiveMode else before
    case Cleaning(_, at) => if at.ClnUnmark? then Off else before
    case _ => before
  }

  lemma StartShows(s: State, t: nat, at: StartPc, ok: bool)
    requires t < |s.pc| && s.pc[t] == Starting(at)
    ensures StartStep(s, t, at, ok).active == Shows(s.pc[t], s.active)
  {
    hide Alive;
  }

  lemma CaptureShows(s: State, t: nat, at: CapturePc, ok: bool)
    requires t < |s.pc| && s.pc[t] == Capturing(at)
    ensures CaptureStep(s, t, at, ok).active == Shows(s.pc[t], s.active)
  {
    hide Alive, Kill;
  }

  lemma CleanupShows(s: State, t: nat, why: Why, at: CleanupPc, ok: bool)
    requires t < |s.pc| && s.pc[t] == Cleaning(why, at)
    ensures CleanupStep(s, t, why, at, ok).active == Shows(s.pc[t], s.active)
  {
    hide Alive, Kill;
  }

  lemma StepShows(s: State, t: nat, ok: bool)
    requires t < |s.pc|
    ensures ThreadStep(s, t, ok).active == Shows(s.pc[t], s.active)
  {
    hide Alive, Kill, CaptureStep, StartStep, CleanupStep;
    match s.pc[t] {
      case Capturing(at) => CaptureShows(s, t, at, ok);
      case Starting(at) => StartShows(s, t, at, ok);
      case Cleaning(why, at) => CleanupShows(s, t, why, at, ok);
      case _ =>
    }
  }

  /** When a one-shot run is shown after a step: when it marks itself, and until it is over or a clean-up hides it. */
  lemma CaptureShownExactly(s: State, e: Event)
    requires Reachable(s)
    ensures Step(s, e).active.CaptureMode? <==>
              if e.Advance? && e.t < |s.pc| && s.pc[e.t] == Capturing(CapMark) then true
              else s.active.CaptureMode?
                   && !(e.Advance? && e.t < |s.pc|
                        && (s.pc[e.t] == Capturing(CapUnmark) || (s.pc[e.t].Cleaning? && s.pc[e.t].cleanup.ClnUnmark?)))
  {
    hide ThreadStep;
    if e.Advance? && e.t < |s.pc| {
      StepShows(s, e.t, e.ok);
      OnlyOneShows(s, e.t);
    }
  }

  /** When the live console is shown after a step: when it marks itself, and until a clean-up hides it. */
  lemma LiveShownExactly(s: State, e: Event)
    requires Reachable(s)
    ensures Step(s, e).active.LiveMode? <==>
              if e.Advance? && e.t < |s.pc| && s.pc[e.t].Starting? && s.pc[e.t].start.LiveMark? then true
              else s.active.LiveMode?
                   && !(e.Advance? && e.t < |s.pc| && s.pc[e.t].Cleaning? && s.pc[e.t].cleanup.ClnUnmark?)
  {
    hide ThreadStep;
    if e.Advance? && e.t < |s.pc| {
      StepShows(s, e.t, e.ok);
      OnlyOneShows(s, e.t);
    }
  }

  /** A one-shot run changes the status only while the live console is not shown, and the other way round. */
  lemma OnlyOneShows(s: State, t: nat)
    requires Reachable(s) && t < |s.pc|
    ensures CapHolds(s.pc[t]) ==> !s.active.LiveMode?
    ensures s.pc[t].Starting? && s.pc[t].start.LiveMark? ==> !s.active.CaptureMode?
  {
    ReachableInv(s);
    assert HoldsAsSeen(s, t);
  }

  lemma CaptureExcludesSession(s: State, t: nat)
    requires Inv(s) && t < |s.pc| && CapHolds(s.pc[t])
    ensures s.liveProc.None?
  {
    assert HoldsAsSeen(s, t);
    HoldersExist(s);
  }

  lemma StartKeepsShown(s: State, t: nat, at: StartPc, ok: bool)
    requires t < |s.pc| && s.pc[t] == Starting(at) && s.admin == Some(t) && LiveShownInv(s)
    ensures LiveShownInv(StartStep(s, t, at, ok))
  {
    hide Alive;
  }

  lemma CleanupKeepsShown(s: State, t: nat, why: Why, at: CleanupPc, ok: bool)
    requires t < |s.pc| && s.pc[t] == Cleaning(why, at) && s.admin == Some(t) && LiveShownInv(s)
    requires at.ClnUnmark? ==> s.liveProc.None?
    ensures LiveShownInv(CleanupStep(s, t, why, at, ok))
  {
    hide Alive, Kill;
  }

  lemma InsideKeepsShown(s: State, t: nat, ok: bool)
    requires t < |s.pc| && InAdmin(s.pc[t]) && s.admin == Some(t) && LiveShownInv(s)
    requires s.pc[t].Cleaning? && s.pc[t].cleanup.ClnUnmark? ==> s.liveProc.None?
    ensures LiveShownInv(ThreadStep(s, t, ok))
  {
    hide StartStep, CleanupStep;
    match s.pc[t] {
      case Starting(at) => StartKeepsShown(s, t, at, ok);
      case Cleaning(why, at) => CleanupKeepsShown(s, t, why, at, ok);
      case _ =>
    }
  }

  /** No step of a thread outside the admin section hides the live session. */
  lemma OutsideKeepsShown(s: State, s': State, t: nat)
    requires t < |s.pc| && !InAdmin(s.pc[t]) && s.admin != Some(t) && LiveShownInv(s) && Touches(s, s', t)
    requires s'.liveProc == s.liveProc && s'.active == Shows(s.pc[t], s.active)
    requires CapHolds(s.pc[t]) ==> s.liveProc.None?
    ensures LiveShownInv(s')
  {
  }

  lemma StepKeepsShown(s: State, e: Event)
    requires Inv(s) && LiveShownInv(s)
    ensures LiveShownInv(Step(s, e))
  {
    hide ThreadStep, MemoryInv, UseInv, KilledInv;
    if e.Advance? && e.t < |s.pc| {
      assert HoldsAsSeen(s, e.t);
      if InAdmin(s.pc[e.t]) {
        InsideKeepsShown(s, e.t, e.ok);
      } else {
        ThreadKeepsLock(s, e.t, e.ok);
        StepShows(s, e.t, e.ok);
        OutsideKeepsSession(s, e.t, e.ok);
        if CapHolds(s.pc[e.t]) {
          CaptureExcludesSession(s, e.t);
        }
        OutsideKeepsShown(s, ThreadStep(s, e.t, e.ok), e.t);
      }
    }
  }

  lemma {:induction false} RunKeepsShown(s: State, events: seq<Event>)
    requires Inv(s) && LiveShownInv(s)
    ensures LiveShownInv(Run(s, events))
    decreases events
  {
    hide Step, Inv, LiveShownInv;
    if events != [] {
      StepKeepsInv(s, events[0]);
      StepKeepsShown(s, events[0]);
      RunKeepsShown(Step(s, events[0]), events[1..]);
    }
  }

  /** With the admin section free, the live console is shown exactly while it has the dongle. */
  lemma LiveShownWhileOwned(s: State)
    requires Reachable(s) && s.admin.None?
    ensures s.active.LiveMode? <==> s.owns
  {
    hide Step, LockInv, MemoryInv, UseInv, KilledInv;
    ReachableInv(s);
    var threads: nat, events: seq<Event> :| s == Run(Init(threads), events);
    InitInv(threads);
    RunKeepsShown(Init(threads), events);
  }
}
