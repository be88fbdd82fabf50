/**
 Requests that meet in `_start_flap_recovery` (pi/portal.py), step by step.

 The portal serves each request in a thread of its own, and nothing locks the recovery flag: a request looks at it,
 sets it, unbinds the device and starts the recovery thread, and that thread writes the retry counter, takes the
 flag down and only then rebinds.  `Hotplug` takes a request for one step; here every access to the flag, the
 counter and the device is a step, in any number of threads, and the question is when the one stands for the other.
 */
module RecoveryRace {
  const MAX_RETRIES := 2

  datatype Thread =
    | Idle                    // a request that has not looked at the flag, or has gone
    | Passed                  // found no recovery under way
    | Armed                   // set the flag
    | Started                 // a recovery thread without pins that has not read the counter
    | Cooling(retry: nat)     // the counter as it read it
    | Counted                 // wrote the counter
    | Cleared                 // took the flag down, and has yet to rebind
    | PinsCooling             // a recovery thread over the pins
    | PinsRebound

  /** `rebinds` counts those without pins since the counter was last reset. */
  datatype State = State(recovering: bool, retries: nat, bound: bool, rebinds: nat, threads: seq<Thread>)

  /** A thread goes one step on, with what the outside answers; or the counter is reset. */
  datatype Event = Advance(t: nat, ok: bool, wired: bool) | Reset

  function Init(requests: nat): State {
    State(false, 0, true, 0, seq(requests, _ => Idle))
  }

  function Goto(s: State, t: nat, pc: Thread): State
    requires t < |s.threads|
  {
    s.(threads := s.threads[t := pc])
  }

  function Spawn(s: State, pc: Thread): State {
    s.(threads := s.threads + [pc])
  }

  function ThreadStep(s: State, t: nat, ok: bool, wired: bool): State
    requires t < |s.threads|
  {
    match s.threads[t]
    case Idle => if s.recovering then s else Goto(s, t, Passed)
    case Passed => Goto(s.(recovering := true), t, Armed)
    case Armed =>
      if ok then Spawn(Goto(s.(bound := false), t, Idle), if wired then PinsCooling else Started)
      else Goto(s.(recovering := false), t, Idle)
    case Started =>
      if s.retries >= MAX_RETRIES then Goto(s.(recovering := false), t, Idle) else Goto(s, t, Cooling(s.retries))
    case Cooling(retry) => Goto(s.(retries := retry + 1), t, Counted)
    case Counted => Goto(s.(recovering := false), t, Cleared)
    case Cleared => Goto(s.(bound := true, rebinds := s.rebinds + 1), t, Idle)
    case PinsCooling =>
      if ok then Goto(s.(bound := true), t, PinsRebound) else Goto(s.(recovering := false), t, Idle)
    case PinsRebound => Goto(s.(recovering := false), t, Idle)
  }

  function Step(s: State, e: Event): State {
    match e
    case Advance(t, ok, wired) => if t < |s.threads| then ThreadStep(s, t, ok, wired) else s
    case Reset => s.(retries := 0, rebinds := 0)
  }

  function Run(s: State, run: seq<Event>): State
    decreases |run|
  {
    if run == [] then s else Run(Step(s, run[0]), run[1..])
  }

  // ----- what one request at a time guarantees

  /** Taking part in a recovery: from the look at the flag to the rebind. */
  predicate Busy(pc: Thread) {
    pc != Idle
  }

  /** The flag does not show it. */
  predicate Unseen(pc: Thread) {
    pc == Passed || pc == Cleared
  }

  /** Its rebind is counted, but still to come. */
  predicate Owes(pc: Thread) {
    pc == Counted || pc == Cleared
  }

  ghost predicate Sole(s: State) {
    forall t, u :: 0 <= t < |s.threads| && 0 <= u < |s.threads| && Busy(s.threads[t]) && Busy(s.threads[u]) ==> t == u
  }

  /** The counter covers the rebinds, the one still owed included, and stays within its limit. */
  ghost predicate Covered(s: State) {
    && s.rebinds <= s.retries <= MAX_RETRIES
    && ((exists t :: 0 <= t < |s.threads| && Owes(s.threads[t])) ==> s.rebinds + 1 <= s.retries)
  }

  ghost predicate Safe(s: State) {
    Sole(s) && Covered(s)
  }

  ghost predicate SafeThroughout(s: State, run: seq<Event>)
    decreases |run|
  {
    Safe(s) && (run == [] || SafeThroughout(Step(s, run[0]), run[1..]))
  }

  // ----- when it holds

  /** A request looks at the flag while somebody is at work whom the flag does not show: between the look and the
      set, or between taking the flag down and the rebind. */
  ghost predicate Overlaps(s: State, e: Event) {
    && e.Advance? && e.t < |s.threads| && s.threads[e.t] == Idle && !s.recovering
    && exists u :: 0 <= u < |s.threads| && Unseen(s.threads[u])
  }

  /** A reset comes between the writing of the counter and the rebind it counts. */
  ghost predicate SlipsIn(s: State, e: Event) {
    e == Reset && exists u :: 0 <= u < |s.threads| && Owes(s.threads[u])
  }

  ghost predicate Undisturbed(s: State, run: seq<Event>)
    decreases |run|
  {
    run == [] || (!Overlaps(s, run[0]) && !SlipsIn(s, run[0]) && Undisturbed(Step(s, run[0]), run[1..]))
  }

  /** The thread has the device without its driver. */
  predicate Detaches(pc: Thread) {
    pc == Started || pc.Cooling? || pc == Counted || pc == Cleared || pc == PinsCooling
  }

  /** The device has no driver while a recovery is at work on it, and has it again after a rebind over the pins. */
  ghost predicate Binding(s: State) {
    forall t :: 0 <= t < |s.threads| ==> BindsAs(s, s.threads[t])
  }

  predicate BindsAs(s: State, pc: Thread) {
    (Detaches(pc) ==> !s.bound) && (pc == PinsRebound ==> s.bound)
  }

  /** What holds besides while nothing has disturbed a run. */
  ghost predicate Inv(s: State) {
    && Safe(s)
    && (s.recovering <==> exists t :: 0 <= t < |s.threads| && Busy(s.threads[t]) && !Unseen(s.threads[t]))
    && (forall t :: 0 <= t < |s.threads| && s.threads[t].Cooling? ==> s.rebinds <= s.threads[t].retry < MAX_RETRIES)
    && Binding(s)
  }

  lemma ResetKeeps(s: State)
    requires Inv(s)
    ensures if SlipsIn(s, Reset) then !Covered(Step(s, Reset)) else Inv(Step(s, Reset))
  {
  }

  lemma LookKeeps(s: State, e: Event)
    requires Inv(s) && e.Advance? && e.t < |s.threads| && s.threads[e.t] == Idle
    ensures if Overlaps(s, e) then !Sole(Step(s, e)) else Inv(Step(s, e))
  {
    var s' := Step(s, e);
    if Overlaps(s, e) {
      var u :| 0 <= u < |s.threads| && Unseen(s.threads[u]);
      assert Busy(s'.threads[u]) && Busy(s'.threads[e.t]);
    } else if !s.recovering {
      assert forall u :: 0 <= u < |s.threads| ==> !Busy(s.threads[u]);
    }
  }

  /** Everyone but thread `t` is idle. */
  ghost predicate Alone(s: State, t: nat) {
    t < |s.threads| && forall u :: 0 <= u < |s.threads| && u != t ==> s.threads[u] == Idle
  }

  /** The invariant, for a state in which only a thread at `pc` may be at work. */
  predicate Fine(s: State, pc: Thread) {
    && (s.recovering <==> Busy(pc) && !Unseen(pc))
    && s.rebinds <= s.retries <= MAX_RETRIES && (Owes(pc) ==> s.rebinds + 1 <= s.retries)
    && (pc.Cooling? ==> s.rebinds <= pc.retry < MAX_RETRIES)
    && BindsAs(s, pc)
  }

  lemma InvAlone(s: State, t: nat)
    requires Alone(s, t)
    ensures Inv(s) <==> Fine(s, s.threads[t])
  {
    var pc := s.threads[t];
    assert Busy(pc) || pc == Idle;
  }

  lemma BusyIsAlone(s: State, t: nat)
    requires Inv(s) && t < |s.threads| && s.threads[t] != Idle
    ensures Alone(s, t)
  {
    assert Busy(s.threads[t]);
  }

  lemma WorkKeeps(s: State, e: Event)
    requires Inv(s) && e.Advance? && e.t < |s.threads| && s.threads[e.t] != Idle
    ensures Inv(Step(s, e))
  {
    hide Inv;
    BusyIsAlone(s, e.t);
    InvAlone(s, e.t);
    InvAlone(Step(s, e), if s.threads[e.t] == Armed && e.ok then |s.threads| else e.t);
  }

  lemma StepExactly(s: State, e: Event)
    requires Inv(s)
    ensures if Overlaps(s, e) || SlipsIn(s, e) then !Safe(Step(s, e)) else Inv(Step(s, e))
  {
    hide Inv, Sole, Covered, Step;
    match e
    case Reset => ResetKeeps(s);
    case Advance(t, _, _) =>
      if t >= |s.threads| {
        NoThread(s, e);
      } else if s.threads[t] == Idle {
        LookKeeps(s, e);
      } else {
        WorkKeeps(s, e);
      }
  }

  lemma NoThread(s: State, e: Event)
    requires e.Advance? && e.t >= |s.threads|
    ensures Step(s, e) == s
  {
  }

  lemma {:induction false} SafeFrom(s: State, run: seq<Event>)
    requires Inv(s)
    ensures SafeThroughout(s, run) <==> Undisturbed(s, run)
    decreases |run|
  {
    hide Inv, Safe, Overlaps, SlipsIn, Step;
    InvIsSafe(s);
    if run != [] {
      StepExactly(s, run[0]);
      if Overlaps(s, run[0]) || SlipsIn(s, run[0]) {
        NotSafe(Step(s, run[0]), run[1..]);
      } else {
        SafeFrom(Step(s, run[0]), run[1..]);
      }
    }
  }

  lemma InvIsSafe(s: State)
    requires Inv(s)
    ensures Safe(s)
  {
  }

  lemma NotSafe(s: State, run: seq<Event>)
    requires !Safe(s)
    ensures !SafeThroughout(s, run)
  {
  }

  /** In every run of any number of requests: there is one recovery at a time, and the counter covers its rebinds,
      if and only if no request looks at the flag while somebody is at work whom it does not show, and no reset
      slips in between a count and its rebind. */
  lemma OneAtATimeExactly(requests: nat, run: seq<Event>)
    ensures SafeThroughout(Init(requests), run) <==> Undisturbed(Init(requests), run)
  {
    SafeFrom(Init(requests), run);
  }

  lemma {:induction false} InvFrom(s: State, run: seq<Event>)
    requires Inv(s) && Undisturbed(s, run)
    ensures Inv(Run(s, run))
    decreases |run|
  {
    hide Inv, Overlaps, SlipsIn, Step;
    if run != [] {
      StepExactly(s, run[0]);
      InvFrom(Step(s, run[0]), run[1..]);
    }
  }

  /** In every undisturbed run the device is without its driver while a recovery is at work on it, and has it again
      when that recovery has rebound it, over the pins or without them. */
  lemma BindingHolds(requests: nat, run: seq<Event>, t: nat, ok: bool, wired: bool)
    requires Undisturbed(Init(requests), run) && t < |Run(Init(requests), run).threads|
    ensures var s := Run(Init(requests), run);
            var s' := Step(s, Advance(t, ok, wired));
            && BindsAs(s, s.threads[t])
            && (s.threads[t] == Cleared || (s.threads[t] == PinsCooling && ok) ==> s'.bound)
            && (s.threads[t] == Armed && ok ==>
                  !s'.bound && s'.threads == s.threads[t := Idle] + [if wired then PinsCooling else Started])
            && (s.threads[t] == PinsRebound ==> !s'.recovering && s'.threads[t] == Idle)
            && (s.bound != s'.bound ==>
                  s.threads[t] == Cleared || s.threads[t] == PinsCooling || s.threads[t] == Armed)
  {
    hide Run, Undisturbed;
    InvFrom(Init(requests), run);
  }

  // ----- a run that shows it

  function Go(t: nat): Event {
    Advance(t, true, false)
  }

  /** Two requests that look before either has set the flag. */
  const MEETING: seq<Event> := [Go(0), Go(1), Go(0), Go(0), Go(1), Go(1)]

  lemma {:induction false} RunConcat(s: State, a: seq<Event>, b: seq<Event>)
    ensures Run(s, a + b) == Run(Run(s, a), b)
    decreases |a|
  {
    hide Step;
    if a == [] {
      assert a + b == b;
    } else {
      var all := a + b;
      assert all[0] == a[0] && all[1..] == a[1..] + b;
      RunConcat(Step(s, a[0]), a[1..], b);
    }
  }

  lemma RunThree(s: State, a: Event, b: Event, c: Event)
    ensures Run(s, [a, b, c]) == Step(Step(Step(s, a), b), c)
  {
    hide Step;
    assert [a, b, c][1..] == [b, c] && [b, c][1..] == [c] && [c][1..] == [];
    assert Run(Step(s, a), [b, c]) == Run(Step(Step(s, a), b), [c]);
    assert Run(Step(Step(s, a), b), [c]) == Step(Step(Step(s, a), b), c);
  }

  /** Both start a recovery thread. */
  lemma TwoThreads()
    ensures Run(Init(2), MEETING) == State(true, 0, false, 0, [Idle, Idle, Started, Started])
  {
    var s0 := Init(2);
    assert s0.threads == [Idle, Idle];
    assert MEETING == [Go(0), Go(1), Go(0)] + [Go(0), Go(1), Go(1)];
    RunConcat(s0, [Go(0), Go(1), Go(0)], [Go(0), Go(1), Go(1)]);
    RunThree(s0, Go(0), Go(1), Go(0));
    var s1 := Run(s0, [Go(0), Go(1), Go(0)]);
    assert s1 == State(true, 0, true, 0, [Armed, Passed]);
    RunThree(s1, Go(0), Go(1), Go(1));
    assert Step(s1, Go(0)) == State(true, 0, false, 0, [Idle, Passed, Started]);
  }

  /** What the two threads then do, but for the rebinds. */
  const BOTH: seq<Event> := [Go(2), Go(3), Go(2), Go(3), Go(2), Go(3)]

  /** Both read the counter at zero, so that it says one when two rebinds are due. */
  lemma OneCount()
    ensures var s := Run(Init(2), MEETING + BOTH);
            && s == State(false, 1, false, 0, [Idle, Idle, Cleared, Cleared])
            && Step(Step(s, Go(2)), Go(3)) == State(false, 1, true, 2, [Idle, Idle, Idle, Idle])
  {
    TwoThreads();
    var s := Run(Init(2), MEETING);
    RunConcat(Init(2), MEETING, BOTH);
    assert BOTH == [Go(2), Go(3), Go(2)] + [Go(3), Go(2), Go(3)];
    RunConcat(s, [Go(2), Go(3), Go(2)], [Go(3), Go(2), Go(3)]);
    RunThree(s, Go(2), Go(3), Go(2));
    var s1 := Run(s, [Go(2), Go(3), Go(2)]);
    assert s1 == State(true, 1, false, 0, [Idle, Idle, Counted, Cooling(0)]);
    RunThree(s1, Go(3), Go(2), Go(3));
  }
}
