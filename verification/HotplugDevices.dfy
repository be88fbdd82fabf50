/**
 What is on a slot's list of devices, which device node it uses and what it shows, over every run of `Hotplug`, told
 from the events alone.
 */
module HotplugDevices {
  import opened Options
  import opened Hotplug

  // ----- the devices on the list

  /** What a run says of a key: that its device is off, or on since the given event, with the node last told. */
  datatype Report = Off | On(since: nat, node: Option<string>)

  /** The event puts a device on the list: the boot scan finds it, or it is plugged in. */
  predicate Joins(s: State, e: Event) {
    e.BootScan? || (Accepts(s, e) && e.action == Add)
  }

  predicate Departs(s: State, e: Event) {
    Accepts(s, e) && e.action == Remove
  }

  /** What event number `n` says of a key. */
  function Said(s: State, e: Event, key: string, n: nat, before: Report): Report {
    if Joins(s, e) && e.key == key then On(if before.On? then before.since else n, e.dev)
    else if Departs(s, e) && e.key == key then Off
    else before
  }

  /** What the events of a run, counted from `n`, say of a key: the last word counts. */
  function Told(s: State, run: seq<Event>, key: string, n: nat, before: Report): Report
    decreases |run|
  {
    if run == [] then before
    else Told(Step(s, run[0]), run[1..], key, n + 1, Said(s, run[0], key, n, before))
  }

  /** The list holds the keys that are on, in the order in which they came on, each with its node. */
  ghost predicate Lists(nodes: seq<Node>, reports: string -> Report, n: nat) {
    && (forall i :: 0 <= i < |nodes| ==> Listed(nodes[i], reports, n))
    && (forall i, j :: 0 <= i < j < |nodes| ==> Earlier(nodes[i], nodes[j], reports))
    && (forall key :: reports(key).On? ==> Has(nodes, key))
  }

  predicate Listed(node: Node, reports: string -> Report, n: nat) {
    reports(node.key).On? && reports(node.key).node == node.dev && reports(node.key).since < n
  }

  predicate Earlier(a: Node, b: Node, reports: string -> Report) {
    reports(a.key).On? && reports(b.key).On? && reports(a.key).since < reports(b.key).since
  }

  ghost predicate Has(nodes: seq<Node>, key: string) {
    exists i :: 0 <= i < |nodes| && nodes[i].key == key
  }

  /** No entry before `i` has the key. */
  predicate NoneBefore(nodes: seq<Node>, i: nat, key: string)
    requires i <= |nodes|
  {
    forall j :: 0 <= j < i ==> nodes[j].key != key
  }

  /** Putting a device that is on the list replaces its entry in place; a new one goes to the end. */
  lemma {:induction false} PutIs(nodes: seq<Node>, key: string, dev: Option<string>, i: nat)
    requires i <= |nodes| && NoneBefore(nodes, i, key) && (i < |nodes| ==> nodes[i].key == key)
    ensures Put(nodes, key, dev) == if i < |nodes| then nodes[i := Node(key, dev)] else nodes + [Node(key, dev)]
  {
    if i > 0 {
      NoneInRest(nodes, i, key);
      PutIs(nodes[1..], key, dev, i - 1);
      assert nodes == [nodes[0]] + nodes[1..];
    }
  }

  lemma {:induction false} DropIs(nodes: seq<Node>, key: string, i: nat)
    requires i <= |nodes| && NoneBefore(nodes, i, key) && (i < |nodes| ==> nodes[i].key == key)
    ensures Drop(nodes, key) == if i < |nodes| then nodes[..i] + nodes[i + 1..] else nodes
  {
    if i > 0 {
      NoneInRest(nodes, i, key);
      DropIs(nodes[1..], key, i - 1);
      assert nodes == [nodes[0]] + nodes[1..];
      if i < |nodes| {
        assert nodes[..i] == [nodes[0]] + nodes[1..][..i - 1] && nodes[i + 1..] == nodes[1..][i..];
      }
    }
  }

  lemma NoneInRest(nodes: seq<Node>, i: nat, key: string)
    requires 0 < i <= |nodes| && NoneBefore(nodes, i, key)
    ensures nodes[0].key != key && NoneBefore(nodes[1..], i - 1, key)
  {
    forall j | 0 <= j < i - 1 ensures nodes[1..][j].key != key {
      assert nodes[1..][j] == nodes[j + 1];
    }
  }

  /** A listed key has one place, with no other before it. */
  lemma PlaceOf(nodes: seq<Node>, reports: string -> Report, n: nat, key: string) returns (i: nat)
    requires Lists(nodes, reports, n) && Has(nodes, key)
    ensures i < |nodes| && nodes[i].key == key && NoneBefore(nodes, i, key)
    ensures forall j :: 0 <= j < |nodes| && nodes[j].key == key ==> j == i
  {
    i :| 0 <= i < |nodes| && nodes[i].key == key;
    forall j | 0 <= j < |nodes| && nodes[j].key == key ensures j == i {
      assert j < i ==> Earlier(nodes[j], nodes[i], reports);
      assert i < j ==> Earlier(nodes[i], nodes[j], reports);
    }
  }

  lemma ReplaceLists(nodes: seq<Node>, put: seq<Node>, was: string -> Report, now: string -> Report, n: nat, i: nat)
    requires Lists(nodes, was, n) && i < |nodes| && |put| == |nodes| && put[i].key == nodes[i].key
    requires forall j :: 0 <= j < |nodes| && j != i ==> put[j] == nodes[j] && nodes[j].key != nodes[i].key
    requires forall k :: now(k) == if k == put[i].key then On(was(k).since, put[i].dev) else was(k)
    ensures Lists(put, now, n + 1)
  {
    KeysStay(nodes, put);
    forall j | 0 <= j < |put| ensures Listed(put[j], now, n + 1) {
      assert Listed(nodes[j], was, n) && Listed(nodes[i], was, n);
    }
    forall j, k | 0 <= j < k < |put| ensures Earlier(put[j], put[k], now) {
      assert Earlier(nodes[j], nodes[k], was);
    }
    forall k | now(k).On? ensures Has(put, k) {
      assert Has(nodes, nodes[i].key);
    }
  }

  lemma AppendLists(nodes: seq<Node>, node: Node, was: string -> Report, now: string -> Report, n: nat)
    requires Lists(nodes, was, n) && !Has(nodes, node.key)
    requires forall k :: now(k) == if k == node.key then On(n, node.dev) else was(k)
    ensures Lists(nodes + [node], now, n + 1)
  {
    var put := nodes + [node];
    forall j | 0 <= j < |put| ensures Listed(put[j], now, n + 1) {
      assert j < |nodes| ==> Listed(nodes[j], was, n) && nodes[j].key != node.key;
    }
    forall j, k | 0 <= j < k < |put| ensures Earlier(put[j], put[k], now) {
      assert Listed(nodes[j], was, n) && Listed(put[k], now, n + 1) && Listed(put[j], now, n + 1);
      assert k < |nodes| ==> Earlier(nodes[j], nodes[k], was);
    }
    forall k | now(k).On? ensures Has(put, k) {
      if k == node.key {
        assert put[|nodes|].key == k;
      } else {
        var j :| 0 <= j < |nodes| && nodes[j].key == k;
        assert put[j].key == k;
      }
    }
  }

  lemma JoinLists(nodes: seq<Node>, was: string -> Report, now: string -> Report, n: nat, key: string,
                  dev: Option<string>)
    requires Lists(nodes, was, n)
    requires forall k :: now(k) == if k == key then On(if was(k).On? then was(k).since else n, dev) else was(k)
    ensures Lists(Put(nodes, key, dev), now, n + 1)
  {
    hide Lists, Put;
    if Has(nodes, key) {
      var i := PlaceOf(nodes, was, n, key);
      PutIs(nodes, key, dev, i);
      IsOn(nodes, was, n, i);
      ReplaceLists(nodes, nodes[i := Node(key, dev)], was, now, n, i);
    } else {
      assert NoneBefore(nodes, |nodes|, key);
      PutIs(nodes, key, dev, |nodes|);
      NotListed(nodes, was, n, key);
      AppendLists(nodes, Node(key, dev), was, now, n);
    }
  }

  lemma IsOn(nodes: seq<Node>, reports: string -> Report, n: nat, i: nat)
    requires Lists(nodes, reports, n) && i < |nodes|
    ensures reports(nodes[i].key).On?
  {
    assert Listed(nodes[i], reports, n);
  }

  /** Lists with the same keys in the same places have the same keys. */
  lemma KeysStay(a: seq<Node>, b: seq<Node>)
    requires |a| == |b| && forall i :: 0 <= i < |a| ==> a[i].key == b[i].key
    ensures forall key :: Has(a, key) ==> Has(b, key)
  {
    forall key | Has(a, key) ensures Has(b, key) {
      var i :| 0 <= i < |a| && a[i].key == key;
      assert b[i].key == key;
    }
  }

  /** What is left of a list without the entry at `at`. */
  predicate IsWithout(nodes: seq<Node>, at: nat, left: seq<Node>)
    requires at < |nodes|
  {
    && |left| == |nodes| - 1
    && (forall i :: 0 <= i < at ==> left[i] == nodes[i])
    && (forall i :: at <= i < |left| ==> left[i] == nodes[i + 1])
  }

  lemma WithoutLists(nodes: seq<Node>, left: seq<Node>, at: nat, was: string -> Report, now: string -> Report, n: nat)
    requires Lists(nodes, was, n) && at < |nodes| && IsWithout(nodes, at, left)
    requires forall k :: now(k) == if k == nodes[at].key then Off else was(k)
    requires forall i :: 0 <= i < |nodes| && nodes[i].key == nodes[at].key ==> i == at
    ensures Lists(left, now, n + 1)
  {
    forall i | 0 <= i < |left| ensures Listed(left[i], now, n + 1) {
      assert Listed(nodes[if i < at then i else i + 1], was, n);
    }
    forall i, j | 0 <= i < j < |left| ensures Earlier(left[i], left[j], now) {
      assert Earlier(nodes[if i < at then i else i + 1], nodes[if j < at then j else j + 1], was);
    }
    forall k | now(k).On? ensures Has(left, k) {
      var i :| 0 <= i < |nodes| && nodes[i].key == k;
      assert left[if i < at then i else i - 1].key == k;
    }
  }

  lemma DepartLists(nodes: seq<Node>, was: string -> Report, now: string -> Report, n: nat, key: string)
    requires Lists(nodes, was, n)
    requires forall k :: now(k) == if k == key then Off else was(k)
    ensures Lists(Drop(nodes, key), now, n + 1)
  {
    hide Lists, Drop;
    if Has(nodes, key) {
      var at := PlaceOf(nodes, was, n, key);
      DropIs(nodes, key, at);
      assert IsWithout(nodes, at, nodes[..at] + nodes[at + 1..]);
      WithoutLists(nodes, nodes[..at] + nodes[at + 1..], at, was, now, n);
    } else {
      assert NoneBefore(nodes, |nodes|, key);
      DropIs(nodes, key, |nodes|);
      NotListed(nodes, was, n, key);
      SameLists(nodes, was, now, n, n + 1);
    }
  }

  lemma NotListed(nodes: seq<Node>, reports: string -> Report, n: nat, key: string)
    requires Lists(nodes, reports, n) && !Has(nodes, key)
    ensures reports(key) == Off
  {
  }

  lemma DetectKeepsDevices(s: State, now: real, usbKnown: bool, wired: bool)
    ensures var d := Detect(s, now, usbKnown, wired); d.nodes == s.nodes && d.present == s.present && d.dev == s.dev
  {
    hide Recent, Settled;
  }

  lemma StepNodes(s: State, e: Event)
    ensures Step(s, e).nodes == if Joins(s, e) then Put(s.nodes, e.key, e.dev)
                                else if Departs(s, e) then Drop(s.nodes, e.key)
                                else s.nodes
  {
    hide Recent, Put, Drop, Detect;
    if e.Plug? {
      DetectKeepsDevices(s, e.now, e.usbKnown, e.wired);
    }
  }

  lemma StepLists(s: State, e: Event, n: nat, was: string -> Report)
    requires Lists(s.nodes, was, n)
    ensures Lists(Step(s, e).nodes, k => Said(s, e, k, n, was(k)), n + 1)
  {
    hide Step, Lists, Put, Drop;
    StepNodes(s, e);
    var now := k => Said(s, e, k, n, was(k));
    if Joins(s, e) {
      JoinLists(s.nodes, was, now, n, e.key, e.dev);
    } else if Departs(s, e) {
      DepartLists(s.nodes, was, now, n, e.key);
    } else {
      SameLists(s.nodes, was, now, n, n + 1);
    }
  }

  lemma SameLists(nodes: seq<Node>, a: string -> Report, b: string -> Report, m: nat, n: nat)
    requires Lists(nodes, a, m) && m <= n && forall k :: a(k) == b(k)
    ensures Lists(nodes, b, n)
  {
    forall i | 0 <= i < |nodes| ensures Listed(nodes[i], b, n) {
      assert Listed(nodes[i], a, m);
    }
    forall i, j | 0 <= i < j < |nodes| ensures Earlier(nodes[i], nodes[j], b) {
      assert Earlier(nodes[i], nodes[j], a);
    }
  }

  lemma {:induction false} RunLists(s: State, run: seq<Event>, n: nat, was: string -> Report)
    requires Lists(s.nodes, was, n)
    ensures Lists(Run(s, run).nodes, k => Told(s, run, k, n, was(k)), n + |run|)
    decreases |run|
  {
    hide Step, Lists, Said;
    var told := k => Told(s, run, k, n, was(k));
    if run == [] {
      SameLists(s.nodes, was, told, n, n);
    } else {
      var e, rest := run[0], run[1..];
      var now := k => Said(s, e, k, n, was(k));
      StepLists(s, e, n, was);
      RunLists(Step(s, e), rest, n + 1, now);
      forall k ensures told(k) == Told(Step(s, e), rest, k, n + 1, now(k)) {
        assert now(k) == Said(s, e, k, n, was(k));
      }
      SameLists(Run(s, run).nodes, k => Told(Step(s, e), rest, k, n + 1, now(k)), told, n + |run|, n + |run|);
    }
  }

  /** Over every run: the keys on the list are exactly those whose last word is a boot scan or an accepted add, each
      once, in the order in which they came on, and with the node they were last told with. */
  lemma DevicesExactly(run: seq<Event>)
    ensures var nodes := Run(Fresh, run).nodes;
            && Lists(nodes, key => Told(Fresh, run, key, 0, Off), |run|)
            && (forall key :: Has(nodes, key) <==> Told(Fresh, run, key, 0, Off).On?)
            && (forall i, j :: 0 <= i < j < |nodes| ==> nodes[i].key != nodes[j].key)
  {
    hide Run, Told;
    var nodes := Run(Fresh, run).nodes;
    var never: string -> Report := key => Off;
    var told := key => Told(Fresh, run, key, 0, Off);
    assert Fresh.nodes == [];
    RunLists(Fresh, run, 0, never);
    SameLists(nodes, key => Told(Fresh, run, key, 0, never(key)), told, |run|, |run|);
    forall key | Has(nodes, key) ensures told(key).On? {
      var i :| 0 <= i < |nodes| && nodes[i].key == key;
      assert Listed(nodes[i], told, |run|);
    }
    forall i, j | 0 <= i < j < |nodes| ensures nodes[i].key != nodes[j].key {
      assert Earlier(nodes[i], nodes[j], told);
    }
  }

  // ----- the device node in use

  /** Whatever the portal did before, a device that is plugged in is used if the slot has no node that exists. */
  lemma AddedNode(s: State, e: Event)
    requires Accepts(s, e) && e.action == Add
    ensures var s' := Step(s, e);
            s'.present && s'.dev == if s.dev != None && e.nodeExists then s.dev else e.dev
  {
    hide Recent, Put, Detect;
    DetectKeepsDevices(s, e.now, e.usbKnown, e.wired);
  }

  /** When a device goes away, the slot is empty if it was the last one; if it was the one in use, the slot uses the
      one that has been on the list longest. */
  lemma RemovedNode(s: State, e: Event)
    requires Accepts(s, e) && e.action == Remove
    ensures var s' := Step(s, e);
            if s'.nodes == [] then !s'.present && s'.dev == None && (s'.flapping || s'.status == Absent)
            else s'.present == s.present && s'.dev == if s.dev == e.dev then s'.nodes[0].dev else s.dev
  {
    hide Recent, Drop, Detect;
    DetectKeepsDevices(s, e.now, e.usbKnown, e.wired);
  }

  lemma OneKey(nodes: seq<Node>, key: string)
    requires forall i, j :: 0 <= i < j < |nodes| ==> nodes[i].key != nodes[j].key
    requires forall k :: Has(nodes, k) ==> k == key
    ensures |nodes| <= 1
  {
    assert |nodes| > 1 ==> nodes[0].key != nodes[1].key;
    forall i | 0 <= i < |nodes| ensures nodes[i].key == key {
      assert Has(nodes, nodes[i].key);
    }
  }

  /** Over every run: with the removal of the only key that is on, the slot is empty. */
  lemma LastDeviceGone(run: seq<Event>, e: Event)
    requires Departs(Run(Fresh, run), e)
    requires forall key :: Told(Fresh, run, key, 0, Off).On? ==> key == e.key
    ensures var s' := Step(Run(Fresh, run), e);
            s'.nodes == [] && !s'.present && s'.dev == None && (s'.flapping || s'.status == Absent)
  {
    hide Run, Told, Step, Put, Drop;
    var s := Run(Fresh, run);
    DevicesExactly(run);
    StepNodes(s, e);
    RemovedNode(s, e);
    OneKey(s.nodes, e.key);
    if s.nodes != [] {
      assert Has(s.nodes, s.nodes[0].key) && NoneBefore(s.nodes, 0, e.key);
      DropIs(s.nodes, e.key, 0);
      assert Drop(s.nodes, e.key) == s.nodes[..0] + s.nodes[1..];
    } else {
      DropIs(s.nodes, e.key, 0);
    }
  }

  /** Any other event leaves the list, and the node unless it tells of one. */
  lemma OthersKeepDevices(s: State, e: Event)
    requires !Joins(s, e) && !Departs(s, e)
    ensures var s' := Step(s, e);
            && s'.nodes == s.nodes && s'.present == s.present
            && s'.dev == if e.Plug? && !s.recovering && Suppressed(s, e) && e.dev.Some? then e.dev
                         else if e.GpioProbe? && s.probes > 0 && e.dev.Some? then e.dev
                         else s.dev
  {
    hide Recent, Detect;
    if e.Plug? {
      DetectKeepsDevices(s, e.now, e.usbKnown, e.wired);
    }
  }

  /** The boot scan brings a slot up, and keeps the node that the slot has. */
  lemma ScannedNode(s: State, key: string, dev: Option<string>)
    ensures var s' := Step(s, BootScan(key, dev));
            s'.present && s'.status == Idle && s'.dev == if s.dev == None then dev else s.dev
  {
  }

  // ----- what the slot shows

  /** The window holds what is less than thirty seconds old. */
  lemma {:induction false} RecentIs(times: seq<real>, now: real, t: real)
    ensures t in Recent(times, now) <==> t in times && now - t < 30.0
  {
    if times != [] {
      RecentIs(times[1..], now, t);
      assert times == [times[0]] + times[1..];
    }
  }

  /** Which events count: none during a recovery, and no add while the board is being debugged; that one leaves its node
      at most.  Every other event goes on record. */
  lemma CountsExactly(s: State, e: Event)
    requires e.Plug?
    ensures var s' := Step(s, e);
            if s.recovering then s' == s && !Accepts(s, e)
            else if e.action == Add && (s.status == Debugging || e.debugging) then
              s' == s.(dev := if e.dev.Some? then e.dev else s.dev) && !Accepts(s, e)
            else s'.world.accepted == s.world.accepted + [e.now] && s'.world.pruned == e.now && Accepts(s, e)
  {
    hide Recent, Put, Drop, Settled;
  }

  /** Over every run, from the accepted events alone: whether the slot flaps after one more of them, whether it
      recovers, and what it shows. */
  lemma AcceptedShows(run: seq<Event>, e: Event)
    requires TimelyRun(Fresh, run)
    requires Accepts(Run(Fresh, run), e) && Timely(Run(Fresh, run), e)
    ensures var s, s' := Run(Fresh, run), Step(Run(Fresh, run), e);
            var t := Recent(s.world.accepted + [e.now], e.now);
            var quiet := |t| < 2 || t[|t| - 1] - t[|t| - 2] >= 10.0;
            && s'.times == t
            && (s'.flapping <==> |t| >= 10 || (s.flapping && !quiet))
            && (s'.recovering <==> |t| >= 10 && e.usbKnown && (!s.flapping || quiet))
            && s'.status == (
              if s'.recovering then Recovering
              else if s.flapping && !quiet then s.status
              else if s'.flapping then Flapping
              else if e.action == Add then Idle
              else if e.action == Remove && !s'.present then Absent
              else if s.flapping then (if s.present then Idle else Absent)
              else s.status)
  {
    hide Run, Recent, Put, Drop, Inv, Detect;
    var s := Run(Fresh, run);
    FreshIsFine();
    RunKeepsInv(Fresh, run);
    PresentWith(s);
    PutAndDrop(s.nodes, e.key, e.dev);
    WindowOf(s, e.now);
    DetectEndsAs(s, e.now, e.usbKnown, e.wired);
  }

  lemma PresentWith(s: State)
    requires Inv(s)
    ensures s.present <==> s.nodes != []
  {
  }

  lemma DetectEndsAs(s: State, now: real, usbKnown: bool, wired: bool)
    requires !s.recovering
    ensures var d, t := Detect(s, now, usbKnown, wired), Recent(s.times + [now], now);
            var quiet := |t| < 2 || t[|t| - 1] - t[|t| - 2] >= 10.0;
            && d.times == t && d.nodes == s.nodes && d.present == s.present
            && (d.flapping <==> |t| >= 10 || (s.flapping && !quiet))
            && (d.recovering <==> |t| >= 10 && usbKnown && (!s.flapping || quiet))
            && d.status == (
              if d.recovering then Recovering
              else if s.flapping && !quiet then s.status
              else if d.flapping then Flapping
              else if s.flapping then (if s.present then Idle else Absent)
              else s.status)
  {
    hide Recent;
  }

  /** A poll clears the flapping of a slot whose window has emptied below the threshold, and does nothing else. */
  lemma PollShows(s: State, now: real)
    ensures Step(s, Poll(now)) ==
            if !s.flapping || s.recovering then s
            else
              var s1 := s.(times := Recent(s.times, now), world := s.world.(pruned := now));
              if |s1.times| >= 10 then s1 else s1.(flapping := false, status := if s.present then Idle else Absent)
  {
    hide Recent;
  }

  /** How a recovery ends, over every run: the thread begins with the retries used up, or its pins fail, and the slot
      is left flapping; or it rebinds without the pins, and the slot is idle with an empty window; or it lets events
      in again after a rebind over the pins, and shows what it showed. */
  lemma RecoveryEndsExactly(run: seq<Event>, e: Event)
    requires TimelyRun(Fresh, run) && Timely(Run(Fresh, run), e) && Run(Fresh, run).recovering
    ensures var s, s' := Run(Fresh, run), Step(Run(Fresh, run), e);
            && (!s'.recovering <==>
                  || (s.worker == NoGpioStarted && e == NoGpioBegin && s.retries == 2)
                  || (s.worker.NoGpioCooling? && e == NoGpioRebind)
                  || (s.worker == GpioCooling && e == GpioPinsFail)
                  || (s.worker == GpioRebound && e == GpioLetGo))
            && (!s'.recovering ==>
                  && (s'.world.bound ==> !s'.flapping)
                  && (!s'.world.bound ==> s'.flapping == s.flapping && s'.status == Flapping)
                  && (e == NoGpioRebind ==> s'.status == Idle && s'.times == [])
                  && (e == GpioLetGo ==> s'.status == s.status && s'.times == s.times && s'.probes == s.probes + 1))
  {
    hide Run, TimelyRun, Recent, Put, Drop, PollStep;
    FreshIsFine();
    RunKeepsInv(Fresh, run);
    if e.Poll? {
      PollCounts(Run(Fresh, run), e.now);
    }
  }

  /** Asking a device after a rebind over its pins: it is in download mode, with the retries reset, or the slot flaps
      again and the retries are reset if the pins could be released. */
  lemma ProbeShows(s: State, ok: bool, released: bool, dev: Option<string>)
    requires s.probes > 0
    ensures var s' := Step(s, GpioProbe(ok, released, dev));
            && s'.probes == s.probes - 1 && s'.status == (if ok then DownloadMode else Flapping)
            && s'.retries == (if ok || released then 0 else s.retries)
            && s'.flapping == s.flapping && s'.recovering == s.recovering && s'.worker == s.worker
            && s'.times == s.times && s'.world.bound == s.world.bound
  {
  }

  /** A manual recovery of a known device starts over: no retries used, the device unbound, its thread at work. */
  lemma ManualStarts(s: State, usbKnown: bool, wired: bool)
    ensures var s' := Step(s, ManualRecover(usbKnown, wired));
            if !usbKnown then s' == s
            else
              && s'.retries == 0 && s'.flapping && s'.recovering
              && (s.recovering ==> s'.worker == s.worker && s'.status == s.status && s'.world.bound == s.world.bound)
              && (!s.recovering ==>
                    s'.status == Recovering && !s'.world.bound
                    && s'.worker == if wired then GpioCooling else NoGpioStarted)
  {
  }
}
