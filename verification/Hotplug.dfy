/**
 Plugging, flapping and recovery of one slot (pi/portal.py: the boot scan, `_handle_hotplug`, `_slot_info`,
 `_start_flap_recovery`, the two recovery threads, release and manual recovery).

 Each handler, and each stretch of a recovery thread between two sleeps, is one step.  What the outside answers
 (does a path exist, is a debugger attached, is the USB device known, are the pins wired) comes with the event.
 The proxy process is left out, and so is a manual start, which marks a slot present by hand.
 */
module Hotplug {
  import opened Options
  import opened Sequences

  const FLAP_WINDOW: real := 30.0
  const FLAP_THRESHOLD := 10
  const FLAP_COOLDOWN: real := 10.0
  const FLAP_MAX_RETRIES := 2

  datatype Action = Add | Remove | Other

  datatype Status = Idle | Absent | Flapping | Recovering | DownloadMode | Debugging | Flashing | Resetting | Monitoring

  /** A recovery thread, from its start until it lets events in again. */
  datatype Worker =
    | Nobody
    | NoGpioStarted
    | NoGpioCooling(retry: nat)      // the counter as it read it
    | GpioCooling
    | GpioRebound

  /** An entry of the dictionary of active devices, which keeps the order of insertion. */
  datatype Node = Node(key: string, dev: Option<string>)

  /** What the slot's record does not say: whether the USB device has its driver; the rebinds without GPIO since
      the counter was last reset; the times of all accepted events since the last clearing, and when the window
      was last looked at. */
  datatype World = World(bound: bool, rebinds: nat, accepted: seq<real>, pruned: real)

  datatype State = State(
    nodes: seq<Node>, present: bool, dev: Option<string>,
    times: seq<real>, flapping: bool, recovering: bool, retries: nat, status: Status,
    worker: Worker, probes: nat,     // threads: in recovery; past it, probing for download mode
    world: World)

  datatype Event =
    | BootScan(key: string, dev: Option<string>)
    | Plug(action: Action, key: string, dev: Option<string>, now: real,
           nodeExists: bool, debugging: bool, usbKnown: bool, wired: bool)
    | Poll(now: real)
    | ManualRecover(usbKnown: bool, wired: bool)
    | Release(done: bool)
    | NoGpioBegin
    | NoGpioRebind
    | GpioPinsFail
    | GpioRebind
    | GpioLetGo
    | GpioProbe(ok: bool, released: bool, dev: Option<string>)
    | Mark(status: Status)                    // another part of the portal sets the state

  // ----- the dictionary of devices

  function Put(nodes: seq<Node>, key: string, dev: Option<string>): seq<Node> {
    if nodes == [] then [Node(key, dev)]
    else if nodes[0].key == key then [Node(key, dev)] + nodes[1..]
    else [nodes[0]] + Put(nodes[1..], key, dev)
  }

  function Drop(nodes: seq<Node>, key: string): seq<Node> {
    if nodes == [] then []
    else if nodes[0].key == key then nodes[1..]
    else [nodes[0]] + Drop(nodes[1..], key)
  }

  // ----- the window

  /** The times less than a window before `now`. */
  function Recent(times: seq<real>, now: real): seq<real> {
    if times == [] then [] else (if now - times[0] < FLAP_WINDOW then [times[0]] else []) + Recent(times[1..], now)
  }

  /** Few events are left, or the last one came after a quiet time. */
  predicate Settled(times: seq<real>) {
    |times| < 2 || times[|times| - 1] - times[|times| - 2] >= FLAP_COOLDOWN
  }

  function Resting(s: State): Status {
    if s.present then Idle else Absent
  }

  // ----- the steps

  /** Detaches the device and starts a thread, unless one is at work or the device is not known. */
  function StartRecovery(s: State, usbKnown: bool, wired: bool): State {
    if s.recovering then s
    else if !usbKnown then s.(status := Flapping)
    else s.(recovering := true, status := Recovering, worker := if wired then GpioCooling else NoGpioStarted,
            world := s.world.(bound := false))
  }

  function Detect(s: State, now: real, usbKnown: bool, wired: bool): State {
    var times := Recent(s.times + [now], now);
    var s1 := s.(times := times, world := s.world.(accepted := s.world.accepted + [now], pruned := now));
    var s2 := if s.flapping && Settled(times) then s1.(flapping := false, status := Resting(s)) else s1;
    if !s2.flapping && |times| >= FLAP_THRESHOLD
    then StartRecovery(s2.(flapping := true, status := Flapping), usbKnown, wired)
    else s2
  }

  function Attach(s: State, key: string, dev: Option<string>, nodeExists: bool): State {
    s.(nodes := Put(s.nodes, key, dev), present := true,
       dev := if s.dev.None? || !nodeExists then dev else s.dev,
       status := if s.flapping then s.status else Idle)
  }

  function Detach(s: State, key: string, dev: Option<string>): State {
    var nodes := Drop(s.nodes, key);
    if nodes == [] then
      s.(nodes := [], present := false, dev := None, status := if s.flapping then s.status else Absent)
    else s.(nodes := nodes, dev := if s.dev == dev then nodes[0].dev else s.dev)
  }

  predicate Suppressed(s: State, e: Event)
    requires e.Plug?
  {
    e.action == Add && (s.status == Debugging || e.debugging)
  }

  predicate Accepts(s: State, e: Event) {
    e.Plug? && !s.recovering && !Suppressed(s, e)
  }

  function PlugStep(s: State, e: Event): State
    requires e.Plug?
  {
    if s.recovering then s
    else if Suppressed(s, e) then s.(dev := if e.dev.Some? then e.dev else s.dev)
    else
      var d := Detect(s, e.now, e.usbKnown, e.wired);
      match e.action
      case Add => Attach(d, e.key, e.dev, e.nodeExists)
      case Remove => Detach(d, e.key, e.dev)
      case Other => d
  }

  function PollStep(s: State, now: real): State {
    if !s.flapping || s.recovering then s
    else
      var recent := Recent(s.times, now);
      var s1 := s.(times := recent, world := s.world.(pruned := now));
      if |recent| < FLAP_THRESHOLD then s1.(flapping := false, status := Resting(s)) else s1
  }

  function Reset(s: State): State {
    s.(retries := 0, world := s.world.(rebinds := 0))
  }

  function Released(s: State, done: bool): State {
    if done then Reset(s).(status := Idle) else s
  }

  function Step(s: State, e: Event): State {
    match e
    case BootScan(key, dev) =>
      s.(nodes := Put(s.nodes, key, dev), present := true, dev := if s.dev.None? then dev else s.dev, status := Idle)
    case Plug(_, _, _, _, _, _, _, _) => PlugStep(s, e)
    case Poll(now) => PollStep(s, now)
    case ManualRecover(usbKnown, wired) =>
      if !usbKnown then s else StartRecovery(Reset(s).(flapping := true), true, wired)
    case Release(done) => Released(s, done)
    case NoGpioBegin =>
      if !s.worker.NoGpioStarted? then s
      else if s.retries >= FLAP_MAX_RETRIES then
        s.(recovering := false, status := Flapping, worker := Nobody)
      else s.(worker := NoGpioCooling(s.retries))
    case NoGpioRebind =>
      if !s.worker.NoGpioCooling? then s
      else s.(retries := s.worker.retry + 1, recovering := false, flapping := false, times := [], status := Idle,
              worker := Nobody, world := s.world.(bound := true, rebinds := s.world.rebinds + 1, accepted := []))
    case GpioPinsFail =>
      if !s.worker.GpioCooling? then s
      else s.(recovering := false, status := Flapping, worker := Nobody)
    case GpioRebind =>
      if !s.worker.GpioCooling? then s else s.(worker := GpioRebound, world := s.world.(bound := true))
    case GpioLetGo =>
      if !s.worker.GpioRebound? then s
      else s.(recovering := false, flapping := false, worker := Nobody, probes := s.probes + 1)
    case GpioProbe(ok, released, dev) =>
      if s.probes == 0 then s
      else
        var s1 := s.(probes := s.probes - 1, dev := if dev.Some? then dev else s.dev);
        if ok then Reset(s1).(status := DownloadMode)
        else (if released then Reset(s1) else s1).(status := Flapping)
    case Mark(status) => s.(status := status)
  }

  // ----- the slot

  class Slot {
    var nodes: seq<Node>
    var present: bool
    var dev: Option<string>
    var times: seq<real>
    var flapping: bool
    var recovering: bool
    var retries: nat
    var status: Status
    var worker: Worker
    var probes: nat
    ghost var world: World

    ghost function Now(): State
      reads this
    {
      State(nodes, present, dev, times, flapping, recovering, retries, status, worker, probes, world)
    }

    constructor ()
      ensures Now() == Fresh
    {
      nodes, present, dev, times, flapping, recovering, retries := [], false, None, [], false, false, 0;
      status, worker, probes := Absent, Nobody, 0;
      world := World(true, 0, [], 0.0);
    }

    method BootScan(key: string, node: Option<string>)
      modifies this
      ensures Now() == Step(old(Now()), Event.BootScan(key, node))
    {
      hide PlugStep, PollStep, Recent, Put, Drop, Settled;
      nodes := Put(nodes, key, node);
      present := true;
      if dev.None? {
        dev := node;
      }
      status := Idle;
    }

    method StartFlapRecovery(usbKnown: bool, wired: bool)
      modifies this
      ensures Now() == StartRecovery(old(Now()), usbKnown, wired)
    {
      if recovering {
        return;
      }
      recovering := true;
      status := Recovering;
      if !usbKnown {
        recovering := false;
        status := Flapping;
        return;
      }
      world := world.(bound := false);
      worker := if wired then GpioCooling else NoGpioStarted;
    }

    method Prune(now: real)
      modifies this`times, this`world
      ensures times == Recent(old(times), now) && world == old(world).(pruned := now)
    {
      var kept: seq<real> := [];
      for i := 0 to |times|
        invariant times == old(times) && world == old(world)
        invariant kept + Recent(times[i..], now) == Recent(times, now)
      {
        RecentNext(times, i, now);
        if now - times[i] < FLAP_WINDOW {
          Regroup(kept, [times[i]], Recent(times[i + 1..], now));
          kept := kept + [times[i]];
        }
      }
      assert kept + Recent(times[|times|..], now) == kept;
      times, world := kept, world.(pruned := now);
    }

    method HandleHotplug(action: Action, key: string, node: Option<string>, now: real,
                         nodeExists: bool, debugging: bool, usbKnown: bool, wired: bool) returns (taken: bool)
      modifies this
      ensures var e := Plug(action, key, node, now, nodeExists, debugging, usbKnown, wired);
              Now() == Step(old(Now()), e) && taken == Accepts(old(Now()), e)
    {
      hide Detect, Attach, Detach, PollStep;
      if recovering {
        return false;
      }
      if action == Add && (status == Debugging || debugging) {
        if node.Some? {
          dev := node;
        }
        return false;
      }
      DetectFlapping(now, usbKnown, wired);
      taken := true;
      match action {
        case Add => AttachNode(key, node, nodeExists);
        case Remove => DetachNode(key, node);
        case Other =>
      }
    }

    method AttachNode(key: string, node: Option<string>, nodeExists: bool)
      modifies this
      ensures Now() == Attach(old(Now()), key, node, nodeExists)
    {
      nodes := Put(nodes, key, node);
      present := true;
      if dev.None? || !nodeExists {
        dev := node;
      }
      if !flapping {
        status := Idle;
      }
    }

    method DetachNode(key: string, node: Option<string>)
      modifies this
      ensures Now() == Detach(old(Now()), key, node)
    {
      nodes := Drop(nodes, key);
      if nodes == [] {
        present, dev := false, None;
        if !flapping {
          status := Absent;
        }
      } else if dev == node {
        dev := nodes[0].dev;
      }
    }

    method DetectFlapping(now: real, usbKnown: bool, wired: bool)
      modifies this
      ensures Now() == Detect(old(Now()), now, usbKnown, wired)
    {
      hide Recent, StartRecovery, Settled;
      RecordEvent(now);
      if flapping {
        ClearIfSettled();
      }
      if !flapping && |times| >= FLAP_THRESHOLD {
        flapping := true;
        status := Flapping;
        StartFlapRecovery(usbKnown, wired);
      }
    }

    method RecordEvent(now: real)
      modifies this`times, this`world
      ensures times == Recent(old(times) + [now], now)
      ensures world == old(world).(accepted := old(world.accepted) + [now], pruned := now)
    {
      times := times + [now];
      world := world.(accepted := world.accepted + [now]);
      Prune(now);
    }

    method ClearIfSettled()
      modifies this`flapping, this`status
      ensures flapping == (old(flapping) && !Settled(times))
      ensures status == if Settled(times) then (if present then Idle else Absent) else old(status)
    {
      var cleared := false;
      if |times| < 2 {
        cleared := true;
      } else {
        var gap := times[|times| - 1] - times[|times| - 2];
        if gap >= FLAP_COOLDOWN {
          cleared := true;
        }
      }
      if cleared {
        flapping := false;
        status := if present then Idle else Absent;
      }
    }

    method SlotInfo(now: real)
      modifies this
      ensures Now() == Step(old(Now()), Event.Poll(now))
    {
      hide Recent;
      if flapping && !recovering {
        Prune(now);
        if |times| < FLAP_THRESHOLD {
          flapping := false;
          status := if present then Idle else Absent;
        }
      }
    }

    method ResetRetries()
      modifies this`retries, this`world
      ensures Now() == Reset(old(Now()))
    {
      retries, world := 0, world.(rebinds := 0);
    }

    method SerialRecover(usbKnown: bool, wired: bool)
      modifies this
      ensures Now() == Step(old(Now()), Event.ManualRecover(usbKnown, wired))
    {
      hide PlugStep, PollStep, Recent, Put, Drop, Settled;
      if !usbKnown {
        return;
      }
      ResetRetries();
      flapping := true;
      StartFlapRecovery(usbKnown, wired);
    }

    method ReleaseSlotGpio(done: bool)
      modifies this`retries, this`world, this`status
      ensures Now() == Released(old(Now()), done)
    {
      if !done {
        return;
      }
      status := Idle;
      ResetRetries();
    }

    method MarkState(state: Status)
      modifies this`status
      ensures Now() == Step(old(Now()), Event.Mark(state))
    {
      hide PlugStep, PollStep, Recent, Put, Drop, Settled;
      status := state;
    }

    /** The recovery thread without GPIO, up to its sleep. */
    method RecoverWithoutGpio()
      requires worker.NoGpioStarted?
      modifies this
      ensures Now() == Step(old(Now()), NoGpioBegin)
    {
      hide PlugStep, PollStep, Recent, Put, Drop, Settled;
      var retry := retries;
      if retry >= FLAP_MAX_RETRIES {
        recovering := false;
        status := Flapping;
        worker := Nobody;
        return;
      }
      worker := NoGpioCooling(retry);
    }

    /** The rest of it. */
    method RebindWithoutGpio()
      requires worker.NoGpioCooling?
      modifies this
      ensures Now() == Step(old(Now()), NoGpioRebind)
    {
      hide PlugStep, PollStep, Recent, Put, Drop, Settled;
      retries := worker.retry + 1;
      recovering := false;
      flapping := false;
      times := [];
      status := Idle;
      worker, world := Nobody, world.(bound := true, rebinds := world.rebinds + 1, accepted := []);
    }

    /** The recovery thread with GPIO, from its sleep to the rebind. */
    method RecoverWithGpio(pinsWork: bool)
      requires worker.GpioCooling?
      modifies this
      ensures Now() == Step(old(Now()), if pinsWork then GpioRebind else GpioPinsFail)
    {
      hide PlugStep, PollStep, Recent, Put, Drop, Settled;
      if !pinsWork {
        recovering := false;
        status := Flapping;
        worker := Nobody;
        return;
      }
      worker, world := GpioRebound, world.(bound := true);
    }

    /** It lets events in again and goes on to ask the device. */
    method LetEventsIn()
      requires worker.GpioRebound?
      modifies this
      ensures Now() == Step(old(Now()), GpioLetGo)
    {
      hide PlugStep, PollStep, Recent, Put, Drop, Settled;
      recovering := false;
      flapping := false;
      worker, probes := Nobody, probes + 1;
    }

    method ProbeEnds(ok: bool, released: bool, node: Option<string>)
      requires probes > 0
      modifies this
      ensures Now() == Step(old(Now()), GpioProbe(ok, released, node))
    {
      hide PlugStep, PollStep, Recent, Put, Drop, Settled;
      probes := probes - 1;
      if node.Some? {
        dev := node;
      }
      if ok {
        ResetRetries();
        status := DownloadMode;
      } else {
        ReleaseSlotGpio(released);
        status := Flapping;
      }
    }
  }

  const Fresh := State([], false, None, [], false, false, 0, Absent, Nobody, 0, World(true, 0, [], 0.0))

  lemma RecentNext(times: seq<real>, i: nat, now: real)
    requires i < |times|
    ensures Recent(times[i..], now) ==
        (if now - times[i] < FLAP_WINDOW then [times[i]] else []) + Recent(times[i + 1..], now)
  {
    assert times[i..][1..] == times[i + 1..];
  }

  // ----- runs

  function Run(s: State, run: seq<Event>): State
    decreases |run|
  {
    if run == [] then s else Run(Step(s, run[0]), run[1..])
  }

  /** The clock does not go back. */
  predicate Timely(s: State, e: Event) {
    match e
    case Plug(_, _, _, now, _, _, _, _) => s.world.pruned <= now
    case Poll(now) => s.world.pruned <= now
    case _ => true
  }

  predicate TimelyRun(s: State, run: seq<Event>)
    decreases |run|
  {
    run == [] || (Timely(s, run[0]) && TimelyRun(Step(s, run[0]), run[1..]))
  }

  predicate Inv(s: State) {
    && (s.present <==> s.nodes != [])
    && (s.recovering <==> s.worker != Nobody)
    && (s.worker.NoGpioCooling? ==> s.world.rebinds <= s.worker.retry < FLAP_MAX_RETRIES)
    && s.world.rebinds <= s.retries <= FLAP_MAX_RETRIES
    && (s.recovering ==> (s.world.bound <==> s.worker == GpioRebound))
    && s.times == Recent(s.world.accepted, s.world.pruned)
  }

  lemma PutAndDrop(nodes: seq<Node>, key: string, dev: Option<string>)
    ensures Put(nodes, key, dev) != [] && Drop([], key) == []
  {
  }

  lemma {:induction false} RecentConcat(a: seq<real>, b: seq<real>, now: real)
    ensures Recent(a + b, now) == Recent(a, now) + Recent(b, now)
  {
    if a == [] {
      assert a + b == b;
    } else {
      var all := a + b;
      assert all[0] == a[0] && all[1..] == a[1..] + b;
      RecentConcat(a[1..], b, now);
    }
  }

  /** Looking at the window again, later, is looking at it once. */
  lemma {:induction false} RecentTwice(times: seq<real>, early: real, late: real)
    requires early <= late
    ensures Recent(Recent(times, early), late) == Recent(times, late)
  {
    if times != [] {
      RecentTwice(times[1..], early, late);
      var rest := Recent(times[1..], early);
      if early - times[0] < FLAP_WINDOW {
        assert Recent(times, early) == [times[0]] + rest && ([times[0]] + rest)[1..] == rest;
      } else {
        assert Recent(times, early) == rest;
      }
    }
  }

  lemma WindowOf(s: State, now: real)
    requires Inv(s) && s.world.pruned <= now
    ensures Recent(s.times, now) == Recent(s.world.accepted, now)
    ensures Recent(s.times + [now], now) == Recent(s.world.accepted + [now], now)
  {
    hide Recent;
    RecentTwice(s.world.accepted, s.world.pruned, now);
    RecentConcat(s.times, [now], now);
    RecentConcat(s.world.accepted, [now], now);
  }

  lemma DetectKeepsInv(s: State, now: real, usbKnown: bool, wired: bool)
    requires Inv(s) && !s.recovering && s.world.pruned <= now
    ensures Inv(Detect(s, now, usbKnown, wired))
  {
    hide Recent, Settled;
    WindowOf(s, now);
  }

  lemma PlugKeepsInv(s: State, e: Event)
    requires Inv(s) && e.Plug? && Timely(s, e)
    ensures Inv(PlugStep(s, e))
  {
    hide Recent, Put, Drop, Detect;
    if Accepts(s, e) {
      DetectKeepsInv(s, e.now, e.usbKnown, e.wired);
      PutAndDrop(Detect(s, e.now, e.usbKnown, e.wired).nodes, e.key, e.dev);
    }
  }

  lemma PollKeepsInv(s: State, now: real)
    requires Inv(s) && s.world.pruned <= now
    ensures Inv(PollStep(s, now))
  {
    hide Recent;
    WindowOf(s, now);
  }

  lemma StepKeepsInv(s: State, e: Event)
    requires Inv(s) && Timely(s, e)
    ensures Inv(Step(s, e))
  {
    hide Recent, Put, PlugStep, PollStep;
    match e
    case BootScan(key, dev) => PutAndDrop(s.nodes, key, dev);
    case Plug(_, _, _, _, _, _, _, _) => PlugKeepsInv(s, e);
    case Poll(now) => PollKeepsInv(s, now);
    case _ =>
      NothingRecent(0.0);
  }

  lemma NothingRecent(now: real)
    ensures forall t :: Recent([], t) == []
  {
  }

  lemma {:induction false} RunKeepsInv(s: State, run: seq<Event>)
    requires Inv(s) && TimelyRun(s, run)
    ensures Inv(Run(s, run))
    decreases |run|
  {
    hide Inv, Step, Timely;
    if run != [] {
      StepKeepsInv(s, run[0]);
      RunKeepsInv(Step(s, run[0]), run[1..]);
    }
  }

  lemma FreshIsFine()
    ensures Inv(Fresh)
  {
  }

  // ----- what holds in every run

  /** Present exactly when some device is on the list. */
  lemma PresentIffDevices(run: seq<Event>)
    requires TimelyRun(Fresh, run)
    ensures var s := Run(Fresh, run); s.present <==> s.nodes != []
  {
    hide Run;
    RunKeepsInv(Fresh, run);
  }

  /** While a recovery is under way, whatever is plugged, unplugged or asked leaves the slot as it is. */
  lemma {:induction false} RecoveryIsolates(s: State, run: seq<Event>)
    requires s.recovering && forall e :: e in run ==> e.Plug? || e.Poll?
    ensures Run(s, run) == s
    decreases |run|
  {
    if run != [] {
      assert run[0] in run;
      assert Step(s, run[0]) == s;
      RecoveryIsolates(s, run[1..]);
    }
  }

  lemma AcceptedStep(s: State, e: Event)
    requires Accepts(s, e)
    ensures var s' := Step(s, e);
            s'.times == Recent(s.times + [e.now], e.now) && (s'.flapping || |s'.times| < FLAP_THRESHOLD)
  {
    hide Recent, Put, Drop, Detect;
    DetectWindow(s, e.now, e.usbKnown, e.wired);
  }

  lemma DetectWindow(s: State, now: real, usbKnown: bool, wired: bool)
    ensures var d := Detect(s, now, usbKnown, wired);
            d.times == Recent(s.times + [now], now) && (d.flapping || |d.times| < FLAP_THRESHOLD)
  {
    hide Recent, Settled;
  }

  /** The window is exact: the times on record are those of the accepted events, since the last clearing, of the
      last thirty seconds.  And an accepted event leaves the slot flapping, or with fewer of them than the
      threshold. */
  lemma AcceptedEvent(run: seq<Event>, e: Event)
    requires TimelyRun(Fresh, run)
    requires Accepts(Run(Fresh, run), e) && Timely(Run(Fresh, run), e)
    ensures var s, s' := Run(Fresh, run), Step(Run(Fresh, run), e);
            && s'.times == Recent(s.world.accepted + [e.now], e.now)
            && (s'.flapping || |s'.times| < FLAP_THRESHOLD)
  {
    hide Run, Recent, Put, Drop, Inv;
    FreshIsFine();
    RunKeepsInv(Fresh, run);
    AcceptedStep(Run(Fresh, run), e);
    WindowOf(Run(Fresh, run), e.now);
  }

  /** The event with which a recovery starts: accepted, of a known device, with the window full, and not within an
      unsettled flapping. */
  predicate Starts(s: State, e: Event) {
    && Accepts(s, e) && e.usbKnown
    && var times := Recent(s.times + [e.now], e.now);
       |times| >= FLAP_THRESHOLD && (!s.flapping || Settled(times))
  }

  lemma StartsStep(s: State, e: Event)
    requires Accepts(s, e)
    ensures var s' := Step(s, e);
            && (s'.recovering <==> Starts(s, e))
            && s'.worker == (if !Starts(s, e) then s.worker else if e.wired then GpioCooling else NoGpioStarted)
            && s'.retries == s.retries && s'.world.rebinds == s.world.rebinds
            && (!Starts(s, e) ==> s'.world.bound == s.world.bound) && (Starts(s, e) ==> !s'.world.bound && s'.flapping)
  {
    hide Recent, Put, Drop, Detect, Settled;
    DetectStarts(s, e.now, e.usbKnown, e.wired);
  }

  lemma DetectStarts(s: State, now: real, usbKnown: bool, wired: bool)
    requires !s.recovering
    ensures var d, times := Detect(s, now, usbKnown, wired), Recent(s.times + [now], now);
            var start := usbKnown && |times| >= FLAP_THRESHOLD && (!s.flapping || Settled(times));
            && d.recovering == start && d.retries == s.retries && d.world.rebinds == s.world.rebinds
            && d.worker == (if !start then s.worker else if wired then GpioCooling else NoGpioStarted)
            && (!start ==> d.world.bound == s.world.bound) && (start ==> !d.world.bound && d.flapping)
            && d.flapping == ((s.flapping && !Settled(times)) || |times| >= FLAP_THRESHOLD)
  {
    hide Recent, Settled;
  }

  /** Over every run: which accepted event starts a recovery, in terms of the accepted events alone. */
  lemma RecoveryStartsExactly(run: seq<Event>, e: Event)
    requires TimelyRun(Fresh, run)
    requires Accepts(Run(Fresh, run), e) && Timely(Run(Fresh, run), e)
    ensures var s := Run(Fresh, run);
            var times := Recent(s.world.accepted + [e.now], e.now);
            Step(s, e).recovering <==> e.usbKnown && |times| >= FLAP_THRESHOLD && (!s.flapping || Settled(times))
  {
    hide Run, Recent, Put, Drop, Inv, Settled;
    FreshIsFine();
    RunKeepsInv(Fresh, run);
    StartsStep(Run(Fresh, run), e);
    WindowOf(Run(Fresh, run), e.now);
  }

  // ----- who leaves the device unbound

  /** The step with which a recovery thread ends without having given the device back: it begins with the retries
      used up, or its pins fail. */
  predicate GivesUp(s: State, e: Event) {
    (e.NoGpioBegin? && s.worker.NoGpioStarted? && s.retries >= FLAP_MAX_RETRIES)
        || (e.GpioPinsFail? && s.worker.GpioCooling?)
  }

  /** Whether the last recovery thread that ended in a run gave up; `before` is for a run in which none ended. */
  predicate LastGaveUp(s: State, run: seq<Event>, before: bool)
    decreases |run|
  {
    if run == [] then before
    else
      var s' := Step(s, run[0]);
      LastGaveUp(s', run[1..], if s.recovering && !s'.recovering then GivesUp(s, run[0]) else before)
  }

  lemma BoundStep(s: State, e: Event)
    requires Inv(s)
    ensures var s' := Step(s, e);
            && (s.recovering && !s'.recovering ==> (!s'.world.bound <==> GivesUp(s, e)))
            && (!s.recovering && !s'.recovering ==> s'.world.bound == s.world.bound)
  {
    hide Recent, Put, Drop, PlugStep, PollStep;
    if e.Plug? {
      PlugBound(s, e);
    } else if e.Poll? {
      PollBound(s, e.now);
    }
  }

  lemma PlugBound(s: State, e: Event)
    requires e.Plug?
    ensures var s' := PlugStep(s, e);
            if s.recovering then s' == s else !s'.recovering ==> s'.world.bound == s.world.bound
  {
    hide Recent, Put, Drop, Detect, Settled;
    if Accepts(s, e) {
      DetectStarts(s, e.now, e.usbKnown, e.wired);
    }
  }

  lemma PollBound(s: State, now: real)
    ensures PollStep(s, now).world.bound == s.world.bound && PollStep(s, now).recovering == s.recovering
  {
    hide Recent;
  }

  lemma {:induction false} BoundFrom(s: State, run: seq<Event>, before: bool)
    requires Inv(s) && TimelyRun(s, run) && (!s.recovering ==> (!s.world.bound <==> before))
    ensures var s' := Run(s, run); !s'.recovering ==> (!s'.world.bound <==> LastGaveUp(s, run, before))
    decreases |run|
  {
    hide Inv, Step, Timely, GivesUp;
    if run != [] {
      BoundStep(s, run[0]);
      StepKeepsInv(s, run[0]);
      var s' := Step(s, run[0]);
      BoundFrom(s', run[1..], if s.recovering && !s'.recovering then GivesUp(s, run[0]) else before);
    }
  }

  /** In every run: a recovery thread has the device unbound until it has rebound it; and with no thread at work
      the device is unbound exactly when the last one to end gave up. */
  lemma UnboundExactly(run: seq<Event>)
    requires TimelyRun(Fresh, run)
    ensures var s := Run(Fresh, run);
            && (s.recovering <==> s.worker != Nobody)
            && (s.recovering ==> (!s.world.bound <==> s.worker != GpioRebound))
            && (!s.recovering ==> (!s.world.bound <==> LastGaveUp(Fresh, run, false)))
  {
    hide Run, LastGaveUp;
    RunKeepsInv(Fresh, run);
    BoundFrom(Fresh, run, false);
  }

  // ----- the number of attempts

  predicate Resets(e: Event) {
    match e
    case ManualRecover(usbKnown, _) => usbKnown
    case Release(done) => done
    case GpioProbe(ok, released, _) => ok || released
    case _ => false
  }

  /** The event resets the counter in this state: an outcome of a probe needs a probe. */
  predicate ResetsNow(s: State, e: Event) {
    Resets(e) && (e.GpioProbe? ==> s.probes > 0)
  }

  /** The rebinds without GPIO that a run does. */
  function Rebinds(s: State, run: seq<Event>): nat
    decreases |run|
  {
    if run == [] then 0
    else (if run[0].NoGpioRebind? && s.worker.NoGpioCooling? then 1 else 0) + Rebinds(Step(s, run[0]), run[1..])
  }

  /** The counter, the rebinds and the thread after an event that does not reset them. */
  lemma StepCounts(s: State, e: Event)
    requires !ResetsNow(s, e)
    ensures var s' := Step(s, e);
            if e.NoGpioRebind? && s.worker.NoGpioCooling? then
              s'.world.rebinds == s.world.rebinds + 1 && s'.retries == s.worker.retry + 1 && s'.worker == Nobody
            else
              && s'.world.rebinds == s.world.rebinds && s'.retries == s.retries
              && (s'.worker.NoGpioCooling? ==>
                  s'.worker == if s.worker.NoGpioCooling? then s.worker else NoGpioCooling(s.retries))
  {
    hide Recent, Put, Drop, PlugStep, PollStep;
    if e.Plug? {
      PlugCounts(s, e);
    } else if e.Poll? {
      PollCounts(s, e.now);
    }
  }

  lemma PlugCounts(s: State, e: Event)
    requires e.Plug?
    ensures var s' := PlugStep(s, e);
            && s'.world.rebinds == s.world.rebinds && s'.retries == s.retries
            && (s'.worker == s.worker || s'.worker == GpioCooling || s'.worker == NoGpioStarted)
  {
    hide Recent, Put, Drop, Detect, Settled;
    if Accepts(s, e) {
      DetectStarts(s, e.now, e.usbKnown, e.wired);
    }
  }

  lemma PollCounts(s: State, now: real)
    ensures var s' := PollStep(s, now);
            s'.world.rebinds == s.world.rebinds && s'.retries == s.retries && s'.worker == s.worker
                && s'.recovering == s.recovering
  {
    hide Recent;
  }

  lemma {:induction false} RunCounts(s: State, run: seq<Event>)
    requires forall e :: e in run ==> !Resets(e)
    ensures Run(s, run).world.rebinds == s.world.rebinds + Rebinds(s, run)
    decreases |run|
  {
    hide Step, Resets;
    if run != [] {
      assert run[0] in run;
      StepCounts(s, run[0]);
      RunCounts(Step(s, run[0]), run[1..]);
    }
  }

  /** Between resets of the retry counter there are at most two rebinds without GPIO, in any run. */
  lemma AtMostTwoRebinds(before: seq<Event>, run: seq<Event>)
    requires TimelyRun(Fresh, before) && TimelyRun(Run(Fresh, before), run)
    requires forall e :: e in run ==> !Resets(e)
    ensures Rebinds(Run(Fresh, before), run) <= FLAP_MAX_RETRIES
  {
    hide Run, Rebinds, Resets, TimelyRun;
    RunKeepsInv(Fresh, before);
    RunKeepsInv(Run(Fresh, before), run);
    RunCounts(Run(Fresh, before), run);
  }

  // ----- resets during an attempt

  /** What an attempt under way will write over the counter, beyond itself. */
  function Carried(s: State): nat {
    if s.worker.NoGpioCooling? then s.worker.retry else 0
  }

  /** The counter runs ahead of the rebinds by `off`, and so does an attempt under way. */
  predicate Ahead(s: State, off: nat) {
    s.retries == s.world.rebinds + off && (s.worker.NoGpioCooling? ==> s.worker.retry == s.retries)
  }

  lemma {:induction false} StaysAhead(s: State, run: seq<Event>, off: nat)
    requires Ahead(s, off) && forall e :: e in run ==> !Resets(e)
    ensures Ahead(Run(s, run), off)
    decreases |run|
  {
    hide Step, Resets;
    if run != [] {
      assert run[0] in run;
      StepCounts(s, run[0]);
      StaysAhead(Step(s, run[0]), run[1..], off);
    }
  }

  /** After a reset the counter is the number of rebinds since, plus, once the attempt that was under way has
      rebound, what that attempt carried. */
  lemma {:induction false} CountAfterReset(s: State, run: seq<Event>)
    requires s.retries == 0 && s.world.rebinds == 0 && (s.worker.NoGpioCooling? ==> s.recovering)
    requires forall e :: e in run ==> !Resets(e)
    ensures var s' := Run(s, run);
            && s'.world.rebinds == Rebinds(s, run)
            && s'.retries == s'.world.rebinds + if Rebinds(s, run) > 0 then Carried(s) else 0
    decreases |run|
  {
    hide Step, Resets;
    RunCounts(s, run);
    if Carried(s) == 0 {
      StaysAhead(s, run, 0);
    } else if run != [] {
      assert run[0] in run;
      var s1 := Step(s, run[0]);
      StepCounts(s, run[0]);
      if run[0].NoGpioRebind? {
        StaysAhead(s1, run[1..], Carried(s));
      } else {
        WorkerWaits(s, run[0]);
        CountAfterReset(s1, run[1..]);
      }
    }
  }

  /** A thread in its cooldown is moved by its own rebind alone. */
  lemma WorkerWaits(s: State, e: Event)
    requires s.worker.NoGpioCooling? && s.recovering && !e.NoGpioRebind?
    ensures Step(s, e).worker == s.worker && Step(s, e).recovering
  {
    hide Recent, Put, Drop, PollStep;
    if e.Poll? {
      PollCounts(s, e.now);
    }
  }

  /** A reset is honoured, the counter being the number of rebinds since in every run until the next reset, if and
      only if no second attempt was in its cooldown when the reset came. */
  lemma ResetHonoured(before: seq<Event>, e: Event)
    requires TimelyRun(Fresh, before) && ResetsNow(Run(Fresh, before), e)
    ensures var s := Run(Fresh, before); var s1 := Step(s, e);
            (forall run :: TimelyRun(s1, run) && (forall f :: f in run ==> !Resets(f)) ==>
                Run(s1, run).retries == Run(s1, run).world.rebinds)
            <==> !(s.worker.NoGpioCooling? && s.worker.retry > 0)
  {
    hide Run, Resets, TimelyRun, Step;
    var s := Run(Fresh, before);
    var s1 := Step(s, e);
    RunKeepsInv(Fresh, before);
    ResetStep(s, e);
    forall run | TimelyRun(s1, run) && (forall f :: f in run ==> !Resets(f))
      ensures Carried(s) == 0 ==> Run(s1, run).retries == Run(s1, run).world.rebinds
    {
      CountAfterReset(s1, run);
    }
    if Carried(s) > 0 {
      var run := [NoGpioRebind];
      OneRebind(s1);
      assert TimelyRun(s1, run);
    }
  }

  lemma ResetStep(s: State, e: Event)
    requires Inv(s) && ResetsNow(s, e)
    ensures var s1 := Step(s, e);
            && s1.retries == 0 && s1.world.rebinds == 0 && Carried(s1) == Carried(s)
            && (s1.worker.NoGpioCooling? <==> s.worker.NoGpioCooling?) && (s1.worker.NoGpioCooling? ==> s1.recovering)
  {
    hide Recent, Put, Drop;
  }

  lemma OneRebind(s: State)
    requires s.worker.NoGpioCooling? && s.retries == 0 && s.world.rebinds == 0 && s.worker.retry > 0
    ensures TimelyRun(s, [NoGpioRebind]) && !Resets(NoGpioRebind)
    ensures Run(s, [NoGpioRebind]).retries > Run(s, [NoGpioRebind]).world.rebinds
  {
    hide PlugStep, PollStep;
    assert [NoGpioRebind][1..] == [];
  }

  // ----- giving up

  /** Unbound, and nobody who would rebind: no recovery thread, or one that is about to give up. */
  predicate Stranded(s: State) {
    !s.world.bound && (s.worker == Nobody || (s.worker.NoGpioStarted? && s.retries >= FLAP_MAX_RETRIES))
  }

  /** What ends that: a recovery that starts with attempts left or over wired pins, or a reset of the counter just
      before the thread gives up.  A reset after that ends nothing. */
  predicate Leaves(s: State, e: Event) {
    if s.worker == Nobody then
      (e.ManualRecover? && e.usbKnown) || (Starts(s, e) && (e.wired || s.retries < FLAP_MAX_RETRIES))
    else ResetsNow(s, e)
  }

  lemma StrandedStep(s: State, e: Event)
    requires Inv(s) && Stranded(s)
    ensures Stranded(Step(s, e)) <==> !Leaves(s, e)
  {
    hide Recent, Put, Drop, PlugStep, PollStep, Starts;
    if e.Plug? {
      PlugStranded(s, e);
    } else {
      NotAccepted(s, e);
      if e.Poll? {
        PollCounts(s, e.now);
        PollBound(s, e.now);
      }
    }
  }

  lemma PlugStranded(s: State, e: Event)
    requires Inv(s) && Stranded(s) && e.Plug?
    ensures Stranded(PlugStep(s, e)) <==>
            !(s.worker == Nobody && Starts(s, e) && (e.wired || s.retries < FLAP_MAX_RETRIES))
  {
    hide Recent, Put, Drop, Starts, Detect;
    if Accepts(s, e) {
      StartsStep(s, e);
    } else {
      NotAccepted(s, e);
    }
  }

  lemma NotAccepted(s: State, e: Event)
    requires !Accepts(s, e)
    ensures !Starts(s, e)
  {
  }

  predicate StrandedThroughout(s: State, run: seq<Event>)
    decreases |run|
  {
    Stranded(s) && (run == [] || StrandedThroughout(Step(s, run[0]), run[1..]))
  }

  predicate LeavesNever(s: State, run: seq<Event>)
    decreases |run|
  {
    run == [] || (!Leaves(s, run[0]) && LeavesNever(Step(s, run[0]), run[1..]))
  }

  /** In every run a stranded device stays so, unbound with nobody to rebind it, for exactly as long as no recovery
      starts that has attempts left or wired pins, or that a reset saves from giving up. */
  lemma {:induction false} StrandedExactly(s: State, run: seq<Event>)
    requires Inv(s) && Stranded(s) && TimelyRun(s, run)
    ensures StrandedThroughout(s, run) <==> LeavesNever(s, run)
    decreases |run|
  {
    hide Step, Inv, Stranded, Leaves, Timely;
    if run != [] {
      StrandedStep(s, run[0]);
      StepKeepsInv(s, run[0]);
      if !Leaves(s, run[0]) {
        StrandedExactly(Step(s, run[0]), run[1..]);
      } else {
        NotStranded(Step(s, run[0]), run[1..]);
      }
    }
  }

  lemma NotStranded(s: State, run: seq<Event>)
    requires !Stranded(s)
    ensures !StrandedThroughout(s, run)
  {
  }

  lemma {:induction false} StrandedAtTheEnd(s: State, run: seq<Event>)
    requires StrandedThroughout(s, run)
    ensures Stranded(Run(s, run))
    decreases |run|
  {
    hide Step, Stranded;
    if run != [] {
      StrandedAtTheEnd(Step(s, run[0]), run[1..]);
    }
  }

  /** A thread in its cooldown is still there after anything but its own rebind. */
  lemma {:induction false} WorkerWaitsOn(s: State, run: seq<Event>)
    requires s.worker.NoGpioCooling? && s.recovering && forall e :: e in run ==> !e.NoGpioRebind?
    ensures Run(s, run).worker == s.worker
    decreases |run|
  {
    hide Step;
    if run != [] {
      assert run[0] in run;
      WorkerWaits(s, run[0]);
      WorkerWaitsOn(Step(s, run[0]), run[1..]);
    }
  }

  /** A recovery without GPIO gives the device back at its rebind, whatever happens before that, resets included, if
      the counter was below two when its thread began.  Otherwise it gives up, and the device stays unbound for as
      long as nothing ends that. */
  lemma GivesBackExactly(s: State, run: seq<Event>)
    requires Inv(s) && s.worker.NoGpioStarted? && forall e :: e in run ==> !e.NoGpioRebind?
    ensures var s1 := Step(s, NoGpioBegin); var end := Step(Run(s1, run), NoGpioRebind);
            && (s.retries < FLAP_MAX_RETRIES ==> end.world.bound)
            && (s.retries >= FLAP_MAX_RETRIES && TimelyRun(s1, run) && LeavesNever(s1, run) ==> !end.world.bound)
  {
    hide Run, TimelyRun, LeavesNever, PlugStep, PollStep;
    var s1 := Step(s, NoGpioBegin);
    if s.retries < FLAP_MAX_RETRIES {
      WorkerWaitsOn(s1, run);
    } else if TimelyRun(s1, run) && LeavesNever(s1, run) {
      StepKeepsInv(s, NoGpioBegin);
      StrandedExactly(s1, run);
      StrandedAtTheEnd(s1, run);
    }
  }

  // ----- getting a stranded device back

  /** Whether the portal can name the USB device: `keyNames` if the slot's key says it; if not, the name is found
      through the tty node, which exists only while the device has its driver. */
  predicate Plausible(keyNames: bool, s: State, e: Event) {
    e.Plug? || e.ManualRecover? ==> (keyNames ==> e.usbKnown) && (e.usbKnown ==> keyNames || s.world.bound)
  }

  predicate PlausibleRun(keyNames: bool, s: State, run: seq<Event>)
    decreases |run|
  {
    run == [] || (Plausible(keyNames, s, run[0]) && PlausibleRun(keyNames, Step(s, run[0]), run[1..]))
  }

  /** A reset and the attempt it allows. */
  function Rescue(reset: Event): seq<Event> {
    [reset, NoGpioBegin, NoGpioRebind]
  }

  lemma RescueWorks(keyNames: bool, s: State)
    requires Inv(s) && Stranded(s) && (keyNames || s.worker.NoGpioStarted?)
    ensures var run := Rescue(if s.worker == Nobody then ManualRecover(true, false) else Release(true));
            && PlausibleRun(keyNames, s, run) && TimelyRun(s, run)
            && Run(s, run).world.bound && Run(s, run).retries == 1 && !Run(s, run).recovering
  {
    hide PlugStep, PollStep, Recent;
    var reset := if s.worker == Nobody then ManualRecover(true, false) else Release(true);
    var s1 := Step(s, reset);
    assert Rescue(reset)[1..] == [NoGpioBegin, NoGpioRebind] && [NoGpioBegin, NoGpioRebind][1..] == [NoGpioRebind];
    assert [NoGpioRebind][1..] == [];
    assert Run(s, Rescue(reset)) == Run(s1, [NoGpioBegin, NoGpioRebind]);
    assert PlausibleRun(keyNames, s1, [NoGpioBegin, NoGpioRebind]);
    hide Step;
    RunTwo(s1, NoGpioBegin, NoGpioRebind);
  }

  lemma HelplessStep(s: State, e: Event)
    requires Inv(s) && !s.world.bound && s.worker == Nobody && Plausible(false, s, e)
    ensures !Step(s, e).world.bound && Step(s, e).worker == Nobody
  {
    hide Recent, Put, Drop, PlugStep, PollStep;
    if e.Plug? {
      PlugHelpless(s, e);
    } else if e.Poll? {
      PollCounts(s, e.now);
      PollBound(s, e.now);
    }
  }

  lemma PlugHelpless(s: State, e: Event)
    requires e.Plug? && !e.usbKnown && !s.world.bound && s.worker == Nobody && !s.recovering
    ensures !PlugStep(s, e).world.bound && PlugStep(s, e).worker == Nobody
  {
    hide Recent, Put, Drop, Detect, Settled;
    if Accepts(s, e) {
      DetectStarts(s, e.now, e.usbKnown, e.wired);
    }
  }

  lemma {:induction false} Helpless(s: State, run: seq<Event>)
    requires Inv(s) && !s.world.bound && s.worker == Nobody && PlausibleRun(false, s, run) && TimelyRun(s, run)
    ensures !Run(s, run).world.bound
    decreases |run|
  {
    hide Inv, Step, Plausible, Timely;
    if run != [] {
      HelplessStep(s, run[0]);
      StepKeepsInv(s, run[0]);
      Helpless(Step(s, run[0]), run[1..]);
    }
  }

  /** The portal has some way to give a stranded device back if and only if the slot's key names it, or the thread has
      yet to give up.  On a slot whose device is found through its node, a recovery that has given up is final. */
  lemma RescueExactly(keyNames: bool, s: State)
    requires Inv(s) && Stranded(s)
    ensures (exists run :: PlausibleRun(keyNames, s, run) && TimelyRun(s, run) && Run(s, run).world.bound)
            <==> keyNames || s.worker.NoGpioStarted?
  {
    hide PlausibleRun, TimelyRun, Run, Inv;
    if keyNames || s.worker.NoGpioStarted? {
      RescueWorks(keyNames, s);
    } else {
      forall run | PlausibleRun(keyNames, s, run) && TimelyRun(s, run) ensures !Run(s, run).world.bound {
        Helpless(s, run);
      }
    }
  }

  // ----- what the portal shows of it

  /** A recovery that gave up leaves the slot flapping.  The flag goes, while the device is still unbound, exactly with
      a poll that finds fewer than ten events in the window, or with an accepted event after a quiet time that does. */
  lemma HiddenExactly(s: State, e: Event)
    requires s.flapping && !s.recovering && s.worker == Nobody && !s.world.bound
    ensures var s' := Step(s, e);
            && !s'.world.bound
            && (!s'.flapping <==>
                match e
                case Poll(now) => |Recent(s.times, now)| < FLAP_THRESHOLD
                case Plug(_, _, _, now, _, _, _, _) =>
                  Accepts(s, e) && var times := Recent(s.times + [now], now); Settled(times) && |times| < FLAP_THRESHOLD
                case _ => false)
  {
    hide Recent, Put, Drop, Detect, Settled;
    if Accepts(s, e) {
      DetectStarts(s, e.now, e.usbKnown, e.wired);
    }
  }

  /** And the state it shows is no longer flapping exactly after that, or after a quiet event that starts another
      recovery, a manual recovery, a release, a successful probe, a boot scan, or another part's say. */
  lemma ShownExactly(s: State, e: Event)
    requires s.flapping && s.status == Flapping && !s.recovering && s.worker == Nobody && !s.world.bound
    ensures Step(s, e).status != Flapping <==>
            match e
            case Poll(now) => |Recent(s.times, now)| < FLAP_THRESHOLD
            case Plug(_, _, _, now, _, _, usbKnown, _) =>
              Accepts(s, e) && var times := Recent(s.times + [now], now);
              Settled(times) && (|times| < FLAP_THRESHOLD || usbKnown)
            case ManualRecover(usbKnown, _) => usbKnown
            case Release(done) => done
            case GpioProbe(ok, _, _) => ok && s.probes > 0
            case BootScan(_, _) => true
            case Mark(status) => status != Flapping
            case _ => false
  {
    hide Recent, Put, Drop, Detect, Settled;
    if Accepts(s, e) {
      DetectShows(s, e.now, e.usbKnown, e.wired);
    }
  }

  lemma DetectShows(s: State, now: real, usbKnown: bool, wired: bool)
    requires s.flapping && s.status == Flapping && !s.recovering
    ensures var d, times := Detect(s, now, usbKnown, wired), Recent(s.times + [now], now);
            && d.flapping == (!Settled(times) || |times| >= FLAP_THRESHOLD)
            && (d.status != Flapping <==> Settled(times) && (|times| < FLAP_THRESHOLD || usbKnown))
  {
    hide Recent, Settled;
  }

  /** In particular the first poll after the window has passed: the third storm has ended in giving up, and the slot
      is reported at rest. */
  lemma PollHidesGivingUp(s: State, now: real)
    requires Inv(s) && s.worker.NoGpioStarted? && s.retries == FLAP_MAX_RETRIES && s.flapping
    ensures var s1 := Step(s, NoGpioBegin); var s2 := Step(s1, Poll(now));
            && Stranded(s1) && s1.flapping && s1.status == Flapping && Stranded(s2)
            && (!s2.flapping && s2.status == Resting(s) <==> |Recent(s.times, now)| < FLAP_THRESHOLD)
  {
    hide Recent;
  }

  // ----- storms

  lemma {:induction false} RunConcat(s: State, a: seq<Event>, b: seq<Event>)
    ensures Run(s, a + b) == Run(Run(s, a), b)
    ensures TimelyRun(s, a + b) <==> TimelyRun(s, a) && TimelyRun(Run(s, a), b)
    decreases |a|
  {
    hide Step, Timely;
    if a == [] {
      assert a + b == b;
    } else {
      var all := a + b;
      assert all[0] == a[0] && all[1..] == a[1..] + b;
      RunConcat(Step(s, a[0]), a[1..], b);
    }
  }

  lemma RunTwo(s: State, a: Event, b: Event)
    ensures Run(s, [a]) == Step(s, a) && Run(s, [a, b]) == Step(Step(s, a), b)
    ensures TimelyRun(s, [a]) == Timely(s, a)
    ensures TimelyRun(s, [a, b]) == (Timely(s, a) && Timely(Step(s, a), b))
  {
    hide Step, Timely;
    assert [a, b][1..] == [b] && [b][1..] == [] && [a][1..] == [];
    assert Run(Step(s, a), [b]) == Step(Step(s, a), b);
    assert TimelyRun(Step(s, a), [b]) == Timely(Step(s, a), b);
  }

  /** Events of a known device within one window, in the order of time. */
  predicate Burst(run: seq<Event>, start: real) {
    && (forall i :: 0 <= i < |run| ==>
          run[i].Plug? && !run[i].debugging && run[i].usbKnown && start <= run[i].now < start + FLAP_WINDOW)
    && (forall i, j :: 0 <= i < j < |run| ==> run[i].now <= run[j].now)
  }

  /** Nothing under way, and no event before `start` on record. */
  predicate Gathering(s: State, start: real) {
    && !s.recovering && !s.flapping && s.status != Debugging && s.worker == Nobody
    && (forall t :: t in s.times ==> start <= t)
  }

  lemma {:induction false} AllRecent(times: seq<real>, start: real, now: real)
    requires now < start + FLAP_WINDOW && forall t :: t in times ==> start <= t
    ensures Recent(times, now) == times
  {
    if times != [] {
      assert forall t: real :: t in times[1..] ==> t in times;
      AllRecent(times[1..], start, now);
      assert times == [times[0]] + times[1..];
      assert times[0] in times;
    }
  }

  lemma OneMore(s: State, start: real, e: Event)
    requires Gathering(s, start) && |s.times| < FLAP_THRESHOLD
    requires e.Plug? && Burst([e], start) && s.world.pruned <= e.now
    ensures Timely(s, e)
    ensures var s' := Step(s, e);
            && s'.retries == s.retries && s'.world.pruned == e.now && s'.times == s.times + [e.now]
            && (|s'.times| < FLAP_THRESHOLD ==> Gathering(s', start))
            && (|s'.times| >= FLAP_THRESHOLD ==>
                  && s'.recovering && s'.flapping && s'.status == Recovering
                  && s'.worker == if e.wired then GpioCooling else NoGpioStarted)
  {
    hide Recent, Put, Drop, Detect;
    assert [e][0] == e;
    AllRecent(s.times + [e.now], start, e.now);
    DetectGathers(s, e.now, e.wired);
  }

  lemma DetectGathers(s: State, now: real, wired: bool)
    requires !s.recovering && !s.flapping
    ensures var d := Detect(s, now, true, wired);
            && d.times == Recent(s.times + [now], now) && d.world.pruned == now && d.retries == s.retries
            && if |d.times| < FLAP_THRESHOLD then
                 !d.recovering && !d.flapping && d.status == s.status && d.worker == s.worker
               else
                 && d.recovering && d.flapping && d.status == Recovering
                 && d.worker == if wired then GpioCooling else NoGpioStarted
  {
    hide Recent, Settled;
  }

  /** Any ten events of a known device within one window, in whatever order of adds and removes, start a recovery
      with the tenth; none of them starts it before. */
  lemma {:induction false} TenEventsStart(s: State, start: real, run: seq<Event>)
    requires Gathering(s, start) && run != [] && |s.times| + |run| == FLAP_THRESHOLD
    requires Burst(run, start) && s.world.pruned <= run[0].now
    ensures TimelyRun(s, run)
    ensures var s' := Run(s, run); var last := run[|run| - 1];
            && s'.recovering && s'.flapping && s'.status == Recovering
                && s'.worker == (if last.wired then GpioCooling else NoGpioStarted)
            && s'.retries == s.retries && s'.world.pruned == last.now && |s'.times| == FLAP_THRESHOLD
            && (forall t :: t in s'.times ==> start <= t && (t in s.times || t <= last.now))
    ensures forall k :: 0 <= k < |run| ==> !Run(s, run[..k]).recovering
    decreases |run|
  {
    hide Step, Gathering, Timely;
    var e, rest := run[0], run[1..];
    BurstSplits(run, start);
    OneMore(s, start, e);
    TimesFrom(s, start);
    if rest != [] {
      TenEventsStart(Step(s, e), start, rest);
      assert run[|run| - 1] == rest[|rest| - 1];
    }
    forall k | 0 <= k < |run| ensures !Run(s, run[..k]).recovering {
      NotBefore(s, start, run[..k]);
    }
  }

  lemma BurstSplits(run: seq<Event>, start: real)
    requires Burst(run, start) && run != []
    ensures Burst([run[0]], start) && Burst(run[1..], start) && (|run| > 1 ==> run[0].now <= run[1..][0].now)
    ensures forall k :: 0 <= k <= |run| ==> forall i :: 0 <= i < k ==> run[..k][i].Plug?
  {
  }

  lemma TimesFrom(s: State, start: real)
    requires Gathering(s, start)
    ensures forall t :: t in s.times ==> start <= t
  {
  }

  lemma NotBefore(s: State, start: real, run: seq<Event>)
    requires Gathering(s, start) && |s.times| + |run| < FLAP_THRESHOLD && forall i :: 0 <= i < |run| ==> run[i].Plug?
    ensures !Run(s, run).recovering
  {
    FewEventsStartNothing(s, run);
  }

  lemma {:induction false} FewEventsStartNothing(s: State, run: seq<Event>)
    requires !s.recovering && !s.flapping && |s.times| + |run| < FLAP_THRESHOLD
    requires forall e :: e in run ==> e.Plug? || e.Poll?
    ensures var s' := Run(s, run); !s'.recovering && !s'.flapping
    decreases |run|
  {
    hide Step;
    if run != [] {
      assert run[0] in run;
      QuietStep(s, run[0]);
      FewEventsStartNothing(Step(s, run[0]), run[1..]);
    }
  }

  lemma QuietStep(s: State, e: Event)
    requires !s.recovering && !s.flapping && |s.times| + 1 < FLAP_THRESHOLD && (e.Plug? || e.Poll?)
    ensures var s' := Step(s, e); !s'.recovering && !s'.flapping && |s'.times| <= |s.times| + 1
  {
    hide Recent, Put, Drop;
    if e.Plug? {
      RecentNoLonger(s.times + [e.now], e.now);
    }
  }

  lemma {:induction false} RecentNoLonger(times: seq<real>, now: real)
    ensures |Recent(times, now)| <= |times|
  {
    if times != [] {
      RecentNoLonger(times[1..], now);
    }
  }

  /** A rebind without the pins clears the window, so that the next nine events cannot start another recovery. */
  lemma RebindClearsTheWindow(s: State, run: seq<Event>)
    requires s.worker.NoGpioCooling? && |run| < FLAP_THRESHOLD && forall e :: e in run ==> e.Plug? || e.Poll?
    ensures var s' := Run(Step(s, NoGpioRebind), run); !s'.recovering && !s'.flapping
  {
    FewEventsStartNothing(Step(s, NoGpioRebind), run);
  }

  /** A recovery over the pins lets events in again without clearing the window: the next accepted event of a known
      device starts the next recovery exactly when the window is full with it. */
  lemma PinsKeepTheWindow(s: State, e: Event)
    requires s.worker.GpioRebound? && Accepts(Step(s, GpioLetGo), e)
    ensures var s1 := Step(s, GpioLetGo);
            Step(s1, e).recovering <==> e.usbKnown && |Recent(s.times + [e.now], e.now)| >= FLAP_THRESHOLD
  {
    hide Recent, Put, Drop, PlugStep, PollStep;
    var s1 := Step(s, GpioLetGo);
    StartsStep(s1, e);
  }

  // ----- runs that show where it stops

  /** A storm at one moment: ten adds of one device. */
  function Storm(key: string, dev: Option<string>, now: real, wired: bool): (run: seq<Event>)
    ensures |run| == FLAP_THRESHOLD && Burst(run, now) && run[|run| - 1].wired == wired
    ensures forall i :: 0 <= i < |run| ==> run[i].now == now
  {
    seq(FLAP_THRESHOLD, i => Plug(Add, key, dev, now, true, false, true, wired))
  }

  /** Nothing under way and an empty window. */
  predicate Calm(s: State, now: real) {
    Gathering(s, now) && s.times == [] && s.world.pruned <= now
  }

  lemma StormAt(s: State, key: string, dev: Option<string>, now: real, wired: bool)
    requires Calm(s, now)
    ensures var run := Storm(key, dev, now, wired); var s' := Run(s, run);
            && TimelyRun(s, run) && s'.recovering && s'.flapping && s'.retries == s.retries && s'.world.pruned == now
            && s'.status == Recovering && s'.worker == (if wired then GpioCooling else NoGpioStarted)
            && |s'.times| == FLAP_THRESHOLD && forall t :: t in s'.times ==> t == now
  {
    hide Run, TimelyRun, Storm, Burst;
    TenEventsStart(s, now, Storm(key, dev, now, wired));
  }

  /** A storm and the beginning of the attempt that follows it. */
  function Onset(key: string, dev: Option<string>, now: real): seq<Event> {
    Storm(key, dev, now, false) + [NoGpioBegin]
  }

  /** The same, and the rebind at the end of its cooldown. */
  function Attempt(key: string, dev: Option<string>, now: real): seq<Event> {
    Onset(key, dev, now) + [NoGpioRebind]
  }

  lemma OnsetCools(s: State, key: string, dev: Option<string>, now: real)
    requires Calm(s, now)
    ensures var run := Onset(key, dev, now); var s' := Run(s, run);
            && TimelyRun(s, run) && s'.retries == s.retries && s'.world.pruned == now && s'.flapping
            && s'.worker == (if s.retries < FLAP_MAX_RETRIES then NoGpioCooling(s.retries) else Nobody)
            && (s'.recovering <==> s'.worker != Nobody) && forall t :: t in s'.times ==> t == now
  {
    hide Run, TimelyRun, Storm, PlugStep, PollStep;
    var storm := Storm(key, dev, now, false);
    StormAt(s, key, dev, now, false);
    RunConcat(s, storm, [NoGpioBegin]);
    RunTwo(Run(s, storm), NoGpioBegin, NoGpioBegin);
  }

  lemma AttemptFails(s: State, key: string, dev: Option<string>, now: real)
    requires Calm(s, now) && s.retries < FLAP_MAX_RETRIES
    ensures var run := Attempt(key, dev, now); var s' := Run(s, run);
            TimelyRun(s, run) && Calm(s', now + FLAP_COOLDOWN) && s'.retries == s.retries + 1
  {
    hide Run, TimelyRun, Onset, PlugStep, PollStep;
    OnsetCools(s, key, dev, now);
    RunConcat(s, Onset(key, dev, now), [NoGpioRebind]);
    RunTwo(Run(s, Onset(key, dev, now)), NoGpioRebind, NoGpioRebind);
  }

  /** Three storms, each as soon as the cooldown after the last is over. */
  function ThreeStorms(key: string, dev: Option<string>, now: real): seq<Event> {
    Attempt(key, dev, now) + (Attempt(key, dev, now + 10.0) + Onset(key, dev, now + 20.0))
  }

  /** A board that storms three times over, with no wires to its pins, ends up stranded, and shown as flapping. */
  lemma GivingUpHappens(key: string, dev: Option<string>, now: real)
    requires now >= 0.0
    ensures var s := Run(Fresh, ThreeStorms(key, dev, now));
            && TimelyRun(Fresh, ThreeStorms(key, dev, now)) && Stranded(s) && s.worker == Nobody
            && s.flapping && !s.recovering && s.world.pruned == now + 20.0
            && forall t :: t in s.times ==> t <= now + 20.0
  {
    hide Run, TimelyRun, Onset, Attempt, LastGaveUp;
    var a, b, c := Attempt(key, dev, now), Attempt(key, dev, now + 10.0), Onset(key, dev, now + 20.0);
    AttemptFails(Fresh, key, dev, now);
    AttemptFails(Run(Fresh, a), key, dev, now + 10.0);
    RunKeepsInv(Fresh, a);
    RunKeepsInv(Run(Fresh, a), b);
    OnsetCools(Run(Run(Fresh, a), b), key, dev, now + 20.0);
    RunConcat(Run(Fresh, a), b, c);
    RunConcat(Fresh, a, b + c);
    OnsetUnbinds(Run(Run(Fresh, a), b), key, dev, now + 20.0);
  }

  /** And then the first poll after the window shows it at rest, with the device still unbound. */
  lemma GivingUpIsHidden(key: string, dev: Option<string>, now: real, later: real)
    requires now >= 0.0 && later >= now + 20.0 + FLAP_WINDOW
    ensures var run := ThreeStorms(key, dev, now) + [Poll(later)]; var s := Run(Fresh, run);
            && TimelyRun(Fresh, run) && Stranded(s) && !s.world.bound && !s.flapping && !s.recovering
            && s.status == Resting(s)
  {
    hide Run, TimelyRun, ThreeStorms, Recent, PlugStep;
    var storms := ThreeStorms(key, dev, now);
    GivingUpHappens(key, dev, now);
    var s := Run(Fresh, storms);
    RunConcat(Fresh, storms, [Poll(later)]);
    RunTwo(s, Poll(later), Poll(later));
    AllOld(s.times, now + 20.0, later);
  }

  lemma {:induction false} AllOld(times: seq<real>, last: real, now: real)
    requires now >= last + FLAP_WINDOW && forall t :: t in times ==> t <= last
    ensures Recent(times, now) == []
  {
    if times != [] {
      assert times[0] in times;
      assert forall t: real :: t in times[1..] ==> t in times;
      AllOld(times[1..], last, now);
    }
  }

  lemma OnsetUnbinds(s: State, key: string, dev: Option<string>, now: real)
    requires Calm(s, now) && Inv(s)
    ensures !Run(s, Onset(key, dev, now)).world.bound
  {
    hide Run, TimelyRun, Storm, PlugStep, PollStep;
    var storm := Storm(key, dev, now, false);
    StormAt(s, key, dev, now, false);
    RunKeepsInv(s, storm);
    RunConcat(s, storm, [NoGpioBegin]);
    RunTwo(Run(s, storm), NoGpioBegin, NoGpioBegin);
  }

  /** The second attempt is in its cooldown: a reset that comes now will be overwritten. */
  lemma SecondAttemptHappens(key: string, dev: Option<string>, now: real)
    requires now >= 0.0
    ensures var run := Attempt(key, dev, now) + Onset(key, dev, now + 10.0);
            TimelyRun(Fresh, run) && Run(Fresh, run).worker == NoGpioCooling(1)
  {
    hide Run, TimelyRun, Onset, Attempt;
    AttemptFails(Fresh, key, dev, now);
    OnsetCools(Run(Fresh, Attempt(key, dev, now)), key, dev, now + 10.0);
    RunConcat(Fresh, Attempt(key, dev, now), Onset(key, dev, now + 10.0));
  }

  /** A storm of a board with wired pins, and the recovery over them. */
  function PinsRun(key: string, dev: Option<string>, now: real): seq<Event> {
    Storm(key, dev, now, true) + [GpioRebind, GpioLetGo]
  }

  /** Twelve seconds after the storm that the pins have just ended, a single event starts the next recovery. */
  lemma PinsAgain(key: string, dev: Option<string>, now: real)
    requires now >= 0.0
    ensures var s := Run(Fresh, PinsRun(key, dev, now));
            var e := Plug(Add, key, dev, now + 12.0, true, false, true, true);
            && TimelyRun(Fresh, PinsRun(key, dev, now)) && Timely(s, e)
            && !s.recovering && !s.flapping && Step(s, e).recovering
  {
    hide Run, TimelyRun, Storm, PlugStep, PollStep, Recent;
    var storm := Storm(key, dev, now, true);
    var e := Plug(Add, key, dev, now + 12.0, true, false, true, true);
    StormAt(Fresh, key, dev, now, true);
    RunConcat(Fresh, storm, [GpioRebind, GpioLetGo]);
    var s0 := Run(Fresh, storm);
    RunTwo(s0, GpioRebind, GpioLetGo);
    AllRecent(s0.times + [e.now], now, e.now);
    PinsKeepTheWindow(Step(s0, GpioRebind), e);
  }
}
