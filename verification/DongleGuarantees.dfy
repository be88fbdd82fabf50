/**
 What every interleaving of the threads of `Dongle` guarantees, and runs that show where the guarantees stop.
 */
module DongleGuarantees {
  import opened Options
  import opened Dongle

  // ----- what every interleaving guarantees

  /** A mutex that is taken is taken by a thread that is inside it. */
  lemma HoldersExist(s: State)
    requires LockInv(s)
    ensures s.admin.Some? ==> InAdmin(s.pc[s.admin.value])
    ensures s.lock.Some? && s.lock.value.Capture? ==> CapHolds(s.pc[s.lock.value.t])
    ensures s.lock.Some? && s.lock.value.Barrier? ==> HasBarrier(s.pc[s.lock.value.t])
  {
    assert s.admin.Some? ==> HoldsAsSeen(s, s.admin.value);
    assert s.lock.Some? && !s.lock.value.Live? ==> HoldsAsSeen(s, s.lock.value.t);
  }

  /** No thread ever releases a mutex it does not hold, and the captures, the live session and
      the barriers of any two threads exclude one another. */
  lemma ExclusiveOwnership(s: State, t: nat, u: nat)
    requires Reachable(s) && t < |s.pc| && u < |s.pc|
    ensures !s.fault
    ensures InAdmin(s.pc[t]) && InAdmin(s.pc[u]) ==> t == u
    ensures (CapHolds(s.pc[t]) || HasBarrier(s.pc[t])) && (CapHolds(s.pc[u]) || HasBarrier(s.pc[u])) ==> t == u
    ensures CapHolds(s.pc[t]) || HasBarrier(s.pc[t]) ==> !s.owns && s.liveProc.None?
    ensures s.lock == Some(Capture(t)) <==> CapHolds(s.pc[t])
    ensures s.lock == Some(Barrier(t)) <==> HasBarrier(s.pc[t])
    ensures s.owns ==> s.lock == Some(Live)
  {
    ReachableInv(s);
    assert HoldsAsSeen(s, t) && HoldsAsSeen(s, u);
    HoldersExist(s);
  }

  /** A process that has not exited and was not sent SIGKILL by a clean-up is the only one. */
  lemma OneRadioProcess(s: State, p: nat, q: nat)
    requires Reachable(s)
    requires p < |s.procs| && !s.procs[p].Exited? && p !in s.killed
    requires q < |s.procs| && !s.procs[q].Exited? && q !in s.killed
    ensures p == q
    ensures s.lock.Some? && !s.lock.value.Barrier?
  {
    ReachableInv(s);
    assert UsedOrDone(s, p) && UsedOrDone(s, q);
  }

  /** When a process is about to be launched, another one still exists exactly if a clean-up sent SIGKILL to one that
      has not exited since: only then can two be there at once. */
  lemma SecondProcessExactly(s: State, t: nat)
    requires Reachable(s) && t < |s.pc|
    requires s.pc[t] == Capturing(CapSpawn) || (s.pc[t].Starting? && s.pc[t].start.LiveSpawn?)
    ensures (exists p :: 0 <= p < |s.procs| && !s.procs[p].Exited?) <==>
            (exists p :: 0 <= p < |s.procs| && !s.procs[p].Exited? && p in s.killed)
  {
    ReachableInv(s);
    assert HoldsAsSeen(s, t);
    forall p | 0 <= p < |s.procs| && !s.procs[p].Exited? ensures p in s.killed {
      assert UsedOrDone(s, p);
    }
  }

  /** How a start ends: success owns the dongle, an error owns nothing. */
  lemma StartOutcome(s: State, t: nat)
    requires Reachable(s) && t < |s.pc| && s.pc[t].Leave?
    ensures s.pc[t].how.Started? ==> s.owns && s.lock == Some(Live) && s.liveProc.Some?
    ensures s.pc[t].how.Raised? || s.pc[t].how.Stopped? || s.pc[t].how.Reaped? ==>
              !s.owns && s.lock != Some(Live) && s.liveProc.None? && !s.active.LiveMode?
  {
    ReachableInv(s);
    assert HoldsAsSeen(s, t);
  }

  /** A start that finds the dongle busy raises as well: neither the refusal nor the leaving after it touches the
      lock, its owner, a process or the reported state. */
  lemma BusyStartTouchesNothing(s: State, t: nat, ok: bool)
    requires Reachable(s) && t < |s.pc|
    ensures s.pc[t] == Starting(LiveTry) ==>
              (Step(s, Advance(t, ok)).pc[t] == Leave(Busy) <==> s.lock.Some?)
              && (s.lock.Some? ==> Step(s, Advance(t, ok)) == s.(pc := s.pc[t := Leave(Busy)]))
    ensures s.pc[t] == Leave(Busy) ==>
              Step(s, Advance(t, ok)) == s.(admin := None, pc := s.pc[t := Idle])
  {
    ReachableInv(s);
    assert HoldsAsSeen(s, t);
  }

  /** With every thread idle, the mutex is free unless a live session owns it. */
  lemma NothingLeaks(s: State)
    requires Reachable(s)
    requires forall t :: 0 <= t < |s.pc| ==> s.pc[t].Idle?
    ensures s.admin.None?
    ensures if s.owns then s.lock == Some(Live) && s.liveProc.Some? else s.lock.None? && s.liveProc.None?
  {
    ReachableInv(s);
    HoldersExist(s);
  }

  /** The thread's next step, with luck or without, does something. */
  predicate CanStep(s: State, t: nat) {
    Step(s, Advance(t, true)) != s || Step(s, Advance(t, false)) != s
  }

  /** It waits for the admin section. */
  predicate WaitsForAdmin(s: State, t: nat)
    requires t < |s.pc|
  {
    s.admin.Some? && (s.pc[t] == Starting(LiveAdmin) || s.pc[t] == Checking(StopLiveAdmin)
                      || (s.pc[t].Checking? && s.pc[t].reap.ReapAdmin?))
  }

  /** It waits for a process that it has killed. */
  predicate WaitsForProcess(s: State, t: nat)
    requires t < |s.pc|
  {
    s.pc[t].Capturing? && s.pc[t].capture.CapDrain? && Alive(s, Some(s.pc[t].capture.p))
  }

  lemma Moves(s: State, t: nat, ok: bool)
    requires Step(s, Advance(t, ok)) != s
    ensures CanStep(s, t)
  {
  }

  lemma CaptureWaits(s: State, t: nat, at: CapturePc)
    requires t < |s.pc| && s.pc[t] == Capturing(at)
    ensures if WaitsForAdmin(s, t) || WaitsForProcess(s, t) then
              CaptureStep(s, t, at, true) == s && CaptureStep(s, t, at, false) == s
            else
              CaptureStep(s, t, at, true).pc[t] != s.pc[t] || CaptureStep(s, t, at, false).pc[t] != s.pc[t]
  {
  }

  lemma StartWaits(s: State, t: nat, at: StartPc)
    requires t < |s.pc| && s.pc[t] == Starting(at)
    ensures if WaitsForAdmin(s, t) || WaitsForProcess(s, t) then
              StartStep(s, t, at, true) == s && StartStep(s, t, at, false) == s
            else
              StartStep(s, t, at, true).pc[t] != s.pc[t] || StartStep(s, t, at, false).pc[t] != s.pc[t]
  {
  }

  lemma StopWaits(s: State, t: nat, at: StopPc)
    requires t < |s.pc| && s.pc[t] == Halting(at)
    ensures if WaitsForAdmin(s, t) || WaitsForProcess(s, t) then
              StopStep(s, t, at, true) == s && StopStep(s, t, at, false) == s
            else
              StopStep(s, t, at, true).pc[t] != s.pc[t] || StopStep(s, t, at, false).pc[t] != s.pc[t]
  {
  }

  lemma CleanupWaits(s: State, t: nat, why: Why, at: CleanupPc)
    requires t < |s.pc| && s.pc[t] == Cleaning(why, at)
    ensures !WaitsForAdmin(s, t) && !WaitsForProcess(s, t)
    ensures CleanupStep(s, t, why, at, false).pc[t] != s.pc[t]
  {
  }

  lemma ReapWaits(s: State, t: nat, at: ReapPc)
    requires t < |s.pc| && s.pc[t] == Checking(at)
    ensures !WaitsForProcess(s, t)
    ensures if WaitsForAdmin(s, t) then ReapStep(s, t, at) == s else ReapStep(s, t, at).pc[t] != s.pc[t]
  {
  }

  lemma LeaveWaits(s: State, t: nat, how: Exit)
    requires t < |s.pc| && s.pc[t] == Leave(how)
    ensures !WaitsForAdmin(s, t) && !WaitsForProcess(s, t) && LeaveStep(s, t, how).pc[t] != s.pc[t]
  {
  }

  /** The waits of a call, all of them: every other wait has its timeout. */
  lemma WaitsExactly(s: State, t: nat)
    requires t < |s.pc| && !s.pc[t].Idle?
    ensures !CanStep(s, t) <==> WaitsForAdmin(s, t) || WaitsForProcess(s, t)
  {
    hide CaptureStep, StartStep, StopStep, CleanupStep, ReapStep, LeaveStep, WaitsForAdmin, WaitsForProcess, CanStep;
    match s.pc[t] {
      case Capturing(at) => CaptureWaits(s, t, at);
      case Starting(at) => StartWaits(s, t, at);
      case Halting(at) => StopWaits(s, t, at);
      case Cleaning(why, at) => CleanupWaits(s, t, why, at);
      case Checking(at) => ReapWaits(s, t, at);
      case Leave(how) => LeaveWaits(s, t, how);
    }
    var s1 := Step(s, Advance(t, true));
    if WaitsForAdmin(s, t) || WaitsForProcess(s, t) {
      Still(s, t);
    } else if s1 != s {
      Moves(s, t, true);
    } else {
      Moves(s, t, false);
    }
  }

  lemma Still(s: State, t: nat)
    requires Step(s, Advance(t, true)) == s && Step(s, Advance(t, false)) == s
    ensures !CanStep(s, t)
  {
  }

  /** No reachable state is a deadlock: who waits for the admin section waits for another thread that can step, and
      who waits for a process can step once that has exited. */
  lemma NoDeadlock(s: State, t: nat)
    requires Reachable(s) && t < |s.pc| && !s.pc[t].Idle? && !CanStep(s, t)
    ensures if WaitsForAdmin(s, t) then s.admin.value < |s.pc| && s.admin.value != t && CanStep(s, s.admin.value)
            else WaitsForProcess(s, t) && CanStep(Step(s, ProcExit(s.pc[t].capture.p)), t)
  {
    hide CanStep, AdminInv, StatusInv, MemoryInv, UseInv, KilledInv;
    ReachableInv(s);
    WaitsExactly(s, t);
    if WaitsForAdmin(s, t) {
      HoldersExist(s);
      WaitsExactly(s, s.admin.value);
    } else {
      WaitsExactly(Step(s, ProcExit(s.pc[t].capture.p)), t);
    }
  }

  /** What `stop` reports after its barrier is not stale: nobody is shown as active. */
  lemma BarrierStatusIsFresh(s: State)
    requires Reachable(s)
    requires s.lock.None? || s.lock.value.Barrier?
    ensures s.active.Off?
  {
    ReachableInv(s);
  }

  /** While a capture is shown as active, the one step by another thread that hides it is the
      status reset of a clean-up, which runs even when there is no live session. */
  lemma CaptureHiddenOnlyByCleanup(s: State, e: Event)
    requires Reachable(s) && s.active.CaptureMode?
    ensures !Step(s, e).active.CaptureMode? <==>
              e.Advance? && e.t < |s.pc|
              && (s.pc[e.t] == Capturing(CapUnmark) || (s.pc[e.t].Cleaning? && s.pc[e.t].cleanup.ClnUnmark?))
  {
    ReachableInv(s);
    if e.Advance? && e.t < |s.pc| {
      assert HoldsAsSeen(s, e.t);
      if s.admin.Some? {
        assert HoldsAsSeen(s, s.admin.value);
      }
    }
  }

  /** The clean-up of a reaper goes after a live process exactly when the session it
      checked has been replaced by another one whose process is alive. */
  lemma ReaperHitsOnlyReplacedSession(s: State, t: nat, ok: bool, seen: nat, found: Option<nat>)
    requires Reachable(s) && t < |s.pc| && s.pc[t] == Cleaning(Reaping(seen), ClnPoll(found))
    ensures s.liveProc == found
    ensures Step(s, Advance(t, ok)).pc[t].cleanup.ClnWait? <==> found != Some(seen) && Alive(s, found)
  {
    ReachableInv(s);
    assert HoldsAsSeen(s, t);
  }

  // ----- runs that show where the guarantees stop

  lemma {:induction false} RunAppend(s: State, events: seq<Event>, e: Event)
    ensures Run(s, events + [e]) == Step(Run(s, events), e)
    decreases events
  {
    if events == [] {
      assert Run(Step(s, e), []) == Step(s, e);
    } else {
      assert (events + [e])[1..] == events[1..] + [e];
      RunAppend(Step(s, events[0]), events[1..], e);
    }
  }

  lemma ReachableStep(s: State, e: Event)
    requires Reachable(s)
    ensures Reachable(Step(s, e))
  {
    var threads: nat, events: seq<Event> :| s == Run(Init(threads), events);
    RunAppend(Init(threads), events, e);
  }

  lemma ReachableInit(threads: nat)
    ensures Reachable(Init(threads))
  {
    assert Run(Init(threads), []) == Init(threads);
  }

  /** One more event of a run. */
  lemma Next(s: State, e: Event) returns (s': State)
    requires Reachable(s)
    ensures Reachable(s') && s' == Step(s, e)
  {
    ReachableStep(s, e);
    s' := Step(s, e);
  }

  /** An idle thread enters the admin section to start the live console, */
  lemma LiveEnters(s: State, t: nat) returns (s': State)
    requires Reachable(s) && t < |s.pc| && s.pc[t].Idle? && s.admin.None?
    ensures Reachable(s') && s' == s.(admin := Some(t), pc := s.pc[t := Starting(LiveTry)])
  {
    hide CaptureStep, CleanupStep, LeaveStep, ReapStep, StopStep;
    s' := Next(s, Begin(t, StartLive));
    assert s' == s.(pc := s.pc[t := Starting(LiveAdmin)]);
    s' := Next(s', Advance(t, true));
    assert s'.pc == s.pc[t := Starting(LiveTry)];
  }

  /** and on a free dongle gets as far as launching it. */
  lemma LiveLaunches(s: State, t: nat) returns (s': State)
    requires Reachable(s) && t < |s.pc| && s.pc[t].Idle? && s.lock.None? && s.admin.None?
    ensures Reachable(s')
    ensures s' == s.(lock := Some(Live), admin := Some(t), owns := true, pc := s.pc[t := Starting(LiveSpawn(false))])
  {
    hide CaptureStep, CleanupStep, LeaveStep, ReapStep, StopStep;
    s' := LiveEnters(s, t);
    s' := Next(s', Advance(t, true));
    assert s' == s.(lock := Some(Live), admin := Some(t), pc := s.pc[t := Starting(LiveOwn)]);
    s' := Next(s', Advance(t, true));
    assert s' == s.(lock := Some(Live), admin := Some(t), owns := true, pc := s.pc[t := Starting(LiveBuild)]);
    s' := Next(s', Advance(t, true));
    assert s'.pc == s.pc[t := Starting(LiveSpawn(false))];
  }

  /** An idle thread starts the live console on a free dongle, and it streams. */
  lemma LiveComesUp(s: State, t: nat) returns (s': State)
    requires Reachable(s) && t < |s.pc| && s.pc[t].Idle? && s.lock.None? && s.admin.None?
    ensures Reachable(s')
    ensures s' == s.(lock := Some(Live), admin := Some(t), owns := true, liveProc := Some(|s.procs|),
                     active := LiveMode, procs := s.procs + [Running], pc := s.pc[t := Leave(Started)])
  {
    hide CaptureStep, CleanupStep, LeaveStep, ReapStep, StopStep;
    s' := LiveLaunches(s, t);
    s' := Next(s', Advance(t, true));
    assert s'.pc == s.pc[t := Starting(LiveRecord(|s.procs|, false))];
    s' := Next(s', Advance(t, true));
    assert s'.pc == s.pc[t := Starting(LiveMark(false))];
    s' := Next(s', Advance(t, true));
    s' := Next(s', Advance(t, true));
    assert s'.pc == s.pc[t := Leave(Started)];
  }

  /** The tail of a clean-up that found a live session. */
  lemma LiveForgotten(s: State, t: nat) returns (s': State)
    requires Reachable(s) && t < |s.pc| && s.pc[t] == Cleaning(Stopping, ClnForget)
    requires s.admin == Some(t) && s.owns && s.lock == Some(Live)
    ensures Reachable(s')
    ensures s' == s.(lock := None, admin := None, owns := false, liveProc := None, active := Off,
                     pc := s.pc[t := Checking(ReapRead)])
  {
    hide CaptureStep, StartStep, ReapStep, StopStep;
    s' := Next(s, Advance(t, true));
    assert s' == s.(liveProc := None, pc := s.pc[t := Cleaning(Stopping, ClnUnmark)]);
    s' := Next(s', Advance(t, true));
    assert s' == s.(liveProc := None, active := Off, pc := s.pc[t := Cleaning(Stopping, ClnOwn)]);
    s' := Next(s', Advance(t, true));
    assert s' == s.(liveProc := None, active := Off, owns := false, pc := s.pc[t := Cleaning(Stopping, ClnRelease)]);
    s' := Next(s', Advance(t, true));
    assert s' == s.(liveProc := None, active := Off, owns := false, lock := None, pc := s.pc[t := Leave(Stopped)]);
    s' := Next(s', Advance(t, true));
    assert s'.pc == s.pc[t := Checking(ReapRead)];
  }

  /** `stop_live` up to the point where the clean-up has found the process, if any. */
  lemma StopLooks(s: State, t: nat) returns (s': State)
    requires Reachable(s) && t < |s.pc| && s.pc[t].Idle? && s.admin.None?
    ensures Reachable(s') && s' == s.(admin := Some(t), pc := s.pc[t := Cleaning(Stopping, ClnPoll(s.liveProc))])
  {
    hide CaptureStep, StartStep, LeaveStep, StopStep;
    s' := Next(s, Begin(t, StopLive));
    s' := Next(s', Advance(t, true));
    s' := Next(s', Advance(t, true));
    assert s'.pc == s.pc[t := Cleaning(Stopping, ClnPoll(s.liveProc))];
  }

  /** Thread `t` stops a live session; its process needs SIGKILL exactly if `exited` is false. */
  lemma LiveGoesDown(s: State, t: nat, exited: bool) returns (s': State)
    requires Reachable(s) && t < |s.pc| && s.pc[t].Idle? && s.admin.None? && s.owns && s.lock == Some(Live)
    requires s.liveProc.Some? && s.liveProc.value < |s.procs|
    requires s.procs[s.liveProc.value] == if exited then Exited else Running
    ensures Reachable(s')
    ensures s'.lock.None? && s'.admin.None? && !s'.owns && s'.liveProc.None? && s'.fault == s.fault
    ensures s'.pc == s.pc[t := Checking(ReapRead)]
    ensures if exited then s'.procs == s.procs && s'.killed == s.killed
            else s'.procs == s.procs[s.liveProc.value := Doomed] && s'.killed == s.killed + {s.liveProc.value}
  {
    hide CaptureStep, StartStep, LeaveStep, ReapStep, StopStep;
    s' := StopLooks(s, t);
    s' := Next(s', Advance(t, true));
    if !exited {
      s' := Next(s', Advance(t, false));
    }
    s' := LiveForgotten(s', t);
    assert s'.pc == s.pc[t := Checking(ReapRead)];
  }

  /** A one-shot run takes the free dongle and shows it, */
  lemma CaptureTakes(s: State, t: nat) returns (s': State)
    requires Reachable(s) && t < |s.pc| && s.pc[t].Idle? && s.lock.None?
    ensures Reachable(s')
    ensures s' == s.(lock := Some(Capture(t)), active := CaptureMode, pc := s.pc[t := Capturing(CapSpawn)])
  {
    hide StartStep, CleanupStep, LeaveStep, ReapStep, StopStep;
    s' := Next(s, Begin(t, RunCapture));
    assert s' == s.(pc := s.pc[t := Capturing(CapTry)]);
    s' := Next(s', Advance(t, true));
    assert s' == s.(lock := Some(Capture(t)), pc := s.pc[t := Capturing(CapMark)]);
    s' := Next(s', Advance(t, true));
    assert s'.pc == s.pc[t := Capturing(CapSpawn)];
  }

  /** and then waits for its process. */
  lemma CaptureComesUp(s: State, t: nat) returns (s': State)
    requires Reachable(s) && t < |s.pc| && s.pc[t].Idle? && s.lock.None?
    ensures Reachable(s')
    ensures s' == s.(lock := Some(Capture(t)), active := CaptureMode, capProc := Some(|s.procs|),
                     procs := s.procs + [Running], pc := s.pc[t := Capturing(CapWait(|s.procs|))])
  {
    hide StartStep, CleanupStep, LeaveStep, ReapStep, StopStep;
    s' := CaptureTakes(s, t);
    s' := Next(s', Advance(t, true));
    assert s'.pc == s.pc[t := Capturing(CapRecord(|s.procs|))];
    s' := Next(s', Advance(t, true));
    assert s'.pc == s.pc[t := Capturing(CapWait(|s.procs|))];
  }

  /** `stop_live` during a one-shot run, with no live session to stop, hides the running capture. */
  lemma StopLiveHidesCapture() returns (s: State)
    ensures Reachable(s) && s.pc == [Capturing(CapWait(0)), Cleaning(Stopping, ClnOwn)]
    ensures s.procs == [Running] && s.active.Off?
  {
    hide CaptureStep, StartStep, LeaveStep, ReapStep, StopStep;
    ReachableInit(2);
    s := CaptureComesUp(Init(2), 0);
    s := StopLooks(s, 1);
    assert s.pc == [Capturing(CapWait(0)), Cleaning(Stopping, ClnPoll(None))] && s.procs == [Running];
    s := Next(s, Advance(1, true));
    s := Next(s, Advance(1, true));
    assert s.pc == [Capturing(CapWait(0)), Cleaning(Stopping, ClnUnmark)];
    s := Next(s, Advance(1, true));
    assert s.pc == [Capturing(CapWait(0)), Cleaning(Stopping, ClnOwn)];
  }

  /** A clean-up that had to send SIGKILL frees the dongle before the process is gone, so a new
      session can be streaming while the old process still exists. */
  lemma TwoProcessesAfterKill() returns (s: State)
    ensures Reachable(s) && s.procs == [Doomed, Running] && s.killed == {0} && s.liveProc == Some(1)
  {
    hide CaptureStep, StartStep, CleanupStep, StopStep;
    s := Init(2);
    ReachableInit(2);
    s := LiveComesUp(s, 0);
    s := Next(s, Advance(0, true));
    s := LiveGoesDown(s, 1, false);
    assert s.procs == [Doomed];
    s := Next(s, Advance(0, true));
    s := Next(s, Advance(0, true));
    assert s.pc == [Idle, Checking(ReapRead)];
    s := LiveComesUp(s, 0);
  }

  /** `_reap_if_dead` up to the admin mutex, on a session whose process has exited. */
  lemma ReapSeesDeath(s: State, t: nat) returns (s': State)
    requires Reachable(s) && t < |s.pc| && s.pc[t].Idle? && s.owns
    requires s.liveProc.Some? && s.liveProc.value < |s.procs| && s.procs[s.liveProc.value].Exited?
    ensures Reachable(s') && s' == s.(pc := s.pc[t := Checking(ReapAdmin(s.liveProc.value))])
  {
    hide CaptureStep, StartStep, CleanupStep, LeaveStep, StopStep;
    s' := Next(s, Begin(t, Reap));
    s' := Next(s', Advance(t, true));
    assert s' == s.(pc := s.pc[t := Checking(ReapOwns(s.liveProc))]);
    s' := Next(s', Advance(t, true));
    assert s' == s.(pc := s.pc[t := Checking(ReapPoll(s.liveProc))]);
    s' := Next(s', Advance(t, true));
    assert s'.pc == s.pc[t := Checking(ReapAdmin(s.liveProc.value))];
  }

  /** A reaper has seen that session 0 is dead, and waits for the admin mutex. */
  lemma ReaperWaits() returns (s: State)
    ensures Reachable(s) && s.pc == [Checking(ReapRead), Idle, Checking(ReapAdmin(0))] && s.procs == [Exited]
    ensures s.lock == Some(Live) && s.admin.None? && s.owns && s.liveProc == Some(0)
  {
    hide CaptureStep, StartStep, CleanupStep, ReapStep, StopStep;
    s := Init(3);
    ReachableInit(3);
    s := LiveComesUp(s, 0);
    s := Next(s, Advance(0, true));
    s := Next(s, ProcExit(0));
    assert s == Init(3).(lock := Some(Live), owns := true, liveProc := Some(0), active := LiveMode, procs := [Exited],
                         pc := [Checking(ReapRead), Idle, Idle]);
    s := ReapSeesDeath(s, 2);
    assert s.pc == [Checking(ReapRead), Idle, Checking(ReapAdmin(0))];
  }

  /** Meanwhile that session is stopped and a healthy one, session 1, is started. */
  lemma SessionReplaced() returns (s: State)
    ensures Reachable(s) && s.pc == [Leave(Started), Checking(ReapRead), Checking(ReapAdmin(0))]
    ensures s.procs == [Exited, Running] && s.admin == Some(0) && s.owns && s.liveProc == Some(1)
  {
    hide CaptureStep, StartStep, CleanupStep, LeaveStep, StopStep;
    s := ReaperWaits();
    s := LiveGoesDown(s, 1, true);
    s := Next(s, Advance(0, true));
    s := Next(s, Advance(0, true));
    assert s.pc == [Idle, Checking(ReapRead), Checking(ReapAdmin(0))];
    s := LiveComesUp(s, 0);
    assert s.pc == [Leave(Started), Checking(ReapRead), Checking(ReapAdmin(0))];
  }

  /** The reaper that checked session 0 is then about to terminate the healthy session 1. */
  lemma StaleReaperReachesHealthySession() returns (s: State)
    ensures Reachable(s) && |s.pc| == 3 && s.pc[2] == Cleaning(Reaping(0), ClnWait(1))
    ensures s.procs == [Exited, Running] && s.owns && s.liveProc == Some(1)
  {
    hide CaptureStep, StartStep, StopStep;
    s := SessionReplaced();
    s := Next(s, Advance(0, true));
    s := Next(s, Advance(2, true));
    assert s.pc == [Checking(ReapRead), Checking(ReapRead), Cleaning(Reaping(0), ClnRead)];
    s := Next(s, Advance(2, true));
    s := Next(s, Advance(2, true));
    assert s.pc == [Checking(ReapRead), Checking(ReapRead), Cleaning(Reaping(0), ClnWait(1))];
  }
}
