/**
 The port scan (pi/netscan_controller.py): `parse_ports`, and the windowed loop of `scan`.

 What a connection says is a function of the port; the readings of the clock, and which connections have finished
 after each wait, are arbitrary functions.  Text is ASCII.
 */
module PortScan {
  import opened Options
  import opened Sequences

  const MAX_IN_FLIGHT := 128
  const MAX_PORT := 65535

  // ----- numbers in decimal

  predicate IsDigit(c: char) {
    '0' <= c <= '9'
  }

  predicate IsNumber(s: string) {
    s != "" && forall c :: c in s ==> IsDigit(c)
  }

  function NumberOf(s: string): nat
    requires forall c :: c in s ==> IsDigit(c)
  {
    if s == "" then 0
    else
      assert s[|s| - 1] in s && IsDigit(s[|s| - 1]);
      10 * NumberOf(s[..|s| - 1]) + (s[|s| - 1] - '0') as int
  }

  function PrintNumber(n: nat): (s: string)
    ensures IsNumber(s)
  {
    var last := [('0' as int + n % 10) as char];
    if n < 10 then last else PrintNumber(n / 10) + last
  }

  lemma {:induction false} NumberRoundTrip(n: nat)
    ensures NumberOf(PrintNumber(n)) == n
  {
    if n >= 10 {
      NumberRoundTrip(n / 10);
      var s := PrintNumber(n);
      assert s[..|s| - 1] == PrintNumber(n / 10);
    }
  }

  // ----- the list of ports

  datatype Item = Range(lo: nat, hi: nat) | BadItem | OutsideOrReversed

  /** One item: a number, or two with a dash between them. */
  function ReadItem(item: string): Item {
    match Find(item, "-", 0)
    case None =>
      if !IsNumber(item) then BadItem else Checked(NumberOf(item), NumberOf(item))
    case Some(at) =>
      var lo, hi := item[..at], item[at + 1..];
      if !IsNumber(lo) || !IsNumber(hi) then BadItem else Checked(NumberOf(lo), NumberOf(hi))
  }

  function Checked(lo: nat, hi: nat): Item {
    if 1 <= lo <= hi <= MAX_PORT then Range(lo, hi) else OutsideOrReversed
  }

  datatype Ports = Ok(ports: seq<nat>) | Empty | Bad(item: string) | Outside(item: string)

  function Trim(s: string): string {
    Strip(s, TEXT_SPACES)
  }

  predicate Ascending(s: seq<nat>) {
    forall i, j :: 0 <= i < j < |s| ==> s[i] < s[j]
  }

  /** Some item covers the port. */
  ghost predicate Covered(items: seq<string>, p: nat) {
    exists i :: 0 <= i < |items| && ReadItem(Trim(items[i])).Range?
        && ReadItem(Trim(items[i])).lo <= p <= ReadItem(Trim(items[i])).hi
  }

  /** What an item is refused with, if it is. */
  function Refusal(item: string): Option<Ports> {
    match ReadItem(item)
    case Range(_, _) => None
    case BadItem => Some(Bad(item))
    case OutsideOrReversed => Some(Outside(item))
  }

  function FirstRefusal(items: seq<string>): Option<Ports> {
    if items == [] then None
    else if Refusal(Trim(items[0])).Some? then Refusal(Trim(items[0]))
    else FirstRefusal(items[1..])
  }

  /** The ports of the items in order and without repetition, or the refusal of the first bad item. */
  method ParsePorts(spec: string) returns (r: Ports)
    ensures Trim(spec) == "" ==> r == Empty
    ensures Trim(spec) != "" ==>
      var items := Split(spec, ",");
      match FirstRefusal(items)
      case None => r.Ok? && Ascending(r.ports) && forall p: nat :: p in r.ports <==> Covered(items, p)
      case Some(refused) => r == refused
  {
    hide Split, Strip, ReadItem;
    if Trim(spec) == "" {
      return Empty;
    }
    var ports: set<nat> := {};
    var items := Split(spec, ",");
    for i := 0 to |items|
      invariant FirstRefusal(items[i..]) == FirstRefusal(items)
      invariant forall p: nat :: p in ports <==> Covered(items[..i], p)
      invariant forall p :: p in ports ==> p <= MAX_PORT
    {
      var item := Trim(items[i]);
      assert items[i..][1..] == items[i + 1..];
      match ReadItem(item) {
        case BadItem =>
          return Bad(item);
        case OutsideOrReversed =>
          return Outside(item);
        case Range(lo, hi) =>
          RangeInside(item);
          CoveredNext(items, i);
          ports := ports + Interval(lo, hi);
      }
    }
    assert items[..|items|] == items;
    r := Ok(Sorted(ports, 0));
  }

  /** What a range comes to: what does not lie in order between 1 and 65535 is refused as such. */
  predicate IsRange(item: Item, lo: nat, hi: nat) {
    item == if 1 <= lo <= hi <= 65535 then Range(lo, hi) else OutsideOrReversed
  }

  /** A number is a range of one port. */
  lemma NumberItem(item: string)
    requires IsNumber(item)
    ensures IsRange(ReadItem(item), NumberOf(item), NumberOf(item))
  {
    NumberHasNoDash(item);
  }

  lemma RangeItem(lo: string, hi: string)
    requires IsNumber(lo) && IsNumber(hi)
    ensures IsRange(ReadItem(lo + "-" + hi), NumberOf(lo), NumberOf(hi))
  {
    NumberHasNoDash(lo);
    FindBehind(lo, "-", hi);
    var item := lo + "-" + hi;
    assert item[..|lo|] == lo && item[|lo| + 1..] == hi;
  }

  /** Anything but a number, or two numbers with a dash between them, is a bad item. */
  lemma BadItemExactly(item: string)
    ensures ReadItem(item) == BadItem <==>
            !IsNumber(item) && forall lo, hi :: IsNumber(lo) && IsNumber(hi) ==> item != lo + "-" + hi
  {
    hide NumberOf;
    if ReadItem(item) == BadItem {
      if IsNumber(item) {
        NumberItem(item);
      }
      forall lo, hi | IsNumber(lo) && IsNumber(hi) ensures item != lo + "-" + hi {
        RangeItem(lo, hi);
      }
    } else {
      match Find(item, "-", 0) {
        case None =>
        case Some(at) =>
          assert item[at] == item[at..at + 1][0];
          assert item == item[..at] + "-" + item[at + 1..];
      }
    }
  }

  lemma NumbersAreDigits(s: string)
    ensures IsNumber(s) <==> s != "" && forall c :: c in s ==> c in {'0', '1', '2', '3', '4', '5', '6', '7', '8', '9'}
  {
    assert forall c :: IsDigit(c) <==> c in {'0', '1', '2', '3', '4', '5', '6', '7', '8', '9'};
  }

  /** The list is refused exactly for its first item that is no range, with the item and what is wrong with it. */
  lemma {:induction false} FirstRefusalIs(items: seq<string>, i: nat)
    requires i <= |items| && forall j :: 0 <= j < i ==> ReadItem(Trim(items[j])).Range?
    ensures i == |items| ==> FirstRefusal(items) == None
    ensures i < |items| && ReadItem(Trim(items[i])) == BadItem ==> FirstRefusal(items) == Some(Bad(Trim(items[i])))
    ensures i < |items| && ReadItem(Trim(items[i])) == OutsideOrReversed ==>
              FirstRefusal(items) == Some(Outside(Trim(items[i])))
  {
    hide ReadItem, Trim;
    if i > 0 {
      FirstRefusalIs(items[1..], i - 1);
    }
  }

  lemma NumberHasNoDash(s: string)
    ensures IsNumber(s) ==> CleanBefore(s, "-") && !Occurs("-", s)
  {
    if IsNumber(s) {
      assert '-' !in s;
      CleanOfOne(s, '-');
    }
  }

  /** Zeros in front do not count. */
  lemma {:induction false} LeadingZero(s: string)
    requires forall c :: c in s ==> IsDigit(c)
    ensures NumberOf("0" + s) == NumberOf(s)
  {
    if s == "" {
      assert NumberOf("") == 0 && "0"[..0] == "";
    } else {
      assert ("0" + s)[..|s|] == "0" + s[..|s| - 1];
      LeadingZero(s[..|s| - 1]);
    }
  }

  lemma RangeInside(item: string)
    ensures ReadItem(item).Range? ==> 1 <= ReadItem(item).lo <= ReadItem(item).hi <= MAX_PORT
  {
  }

  lemma CoveredNext(items: seq<string>, i: nat)
    requires i < |items| && ReadItem(Trim(items[i])).Range?
    ensures forall p: nat :: Covered(items[..i + 1], p) <==>
              Covered(items[..i], p) || ReadItem(Trim(items[i])).lo <= p <= ReadItem(Trim(items[i])).hi
  {
    hide ReadItem, Trim;
    var more := items[..i + 1];
    assert forall j :: 0 <= j < i ==> more[j] == items[..i][j];
    assert more[i] == items[i];
    forall p: nat | Covered(items[..i], p) ensures Covered(more, p) {
      var j :| 0 <= j < i && ReadItem(Trim(items[..i][j])).Range?
          && ReadItem(Trim(items[..i][j])).lo <= p <= ReadItem(Trim(items[..i][j])).hi;
      assert more[j] == items[..i][j];
    }
  }

  function Interval(lo: nat, hi: nat): (s: set<nat>)
    ensures forall p: nat :: p in s <==> lo <= p <= hi
    decreases hi + 1 - lo
  {
    if lo > hi then {} else {lo} + Interval(lo + 1, hi)
  }

  /** The members of a set from `from` on, in order. */
  function Sorted(ports: set<nat>, from: nat): (s: seq<nat>)
    requires forall p :: p in ports ==> p <= MAX_PORT
    ensures Ascending(s) && forall p: nat :: p in s <==> p in ports && from <= p
    decreases MAX_PORT + 1 - from
  {
    if from > MAX_PORT then []
    else
      var rest := Sorted(ports, from + 1);
      assert forall j :: 0 <= j < |rest| ==> rest[j] in rest;
      (if from in ports then [from] else []) + rest
  }

  // ----- ranges as they are written

  /** An item as a caller writes it, with blanks around it. */
  datatype Written = Written(before: string, lo: nat, hi: Option<nat>, after: string) {
    predicate Valid() {
      Blank(before, TEXT_SPACES) && Blank(after, TEXT_SPACES) && ',' !in before && ',' !in after
    }

    function Core(): string {
      PrintNumber(lo) + if hi.Some? then "-" + PrintNumber(hi.value) else ""
    }

    function Print(): string {
      before + Core() + after
    }

    function High(): nat {
      if hi.Some? then hi.value else lo
    }
  }

  function PrintAll(items: seq<Written>): string
    requires items != []
  {
    if |items| == 1 then items[0].Print() else items[0].Print() + "," + PrintAll(items[1..])
  }

  function Prints(items: seq<Written>): seq<string> {
    if items == [] then [] else [items[0].Print()] + Prints(items[1..])
  }

  lemma DigitsOnly(n: nat)
    ensures var s := PrintNumber(n); '-' !in s && ',' !in s && s[0] !in TEXT_SPACES && s[|s| - 1] !in TEXT_SPACES
  {
    var s := PrintNumber(n);
    assert s[0] in s && s[|s| - 1] in s;
    assert !IsDigit('-') && !IsDigit(',');
    assert forall c :: c in TEXT_SPACES ==> !IsDigit(c);
  }

  lemma TrimWritten(w: Written)
    requires w.Valid()
    ensures Trim(w.Print()) == w.Core() != ""
  {
    hide Blank;
    CoreEnds(w);
    StripLeftBlank(w.before, w.Core() + w.after, TEXT_SPACES);
    assert w.before + w.Core() + w.after == w.before + (w.Core() + w.after);
    assert (w.Core() + w.after)[0] == w.Core()[0];
    StripRightBlank(w.Core(), w.after, TEXT_SPACES);
    StripRightEnd(w.Core(), TEXT_SPACES);
  }

  lemma CoreEnds(w: Written)
    ensures var s := w.Core(); s != "" && s[0] !in TEXT_SPACES && s[|s| - 1] !in TEXT_SPACES && ',' !in s
  {
    hide PrintNumber;
    DigitsOnly(w.lo);
    if w.hi.Some? {
      DigitsOnly(w.hi.value);
    }
  }

  lemma ReadCore(w: Written)
    ensures ReadItem(w.Core()) == Checked(w.lo, w.High())
  {
    hide PrintNumber, IsNumber;
    DigitsOnly(w.lo);
    NumberRoundTrip(w.lo);
    if w.hi.Some? {
      NumberRoundTrip(w.hi.value);
      CleanOfOne(PrintNumber(w.lo), '-');
      FindBehind(PrintNumber(w.lo), "-", PrintNumber(w.hi.value));
      var s, n := w.Core(), |PrintNumber(w.lo)|;
      assert s == PrintNumber(w.lo) + "-" + PrintNumber(w.hi.value);
      assert s[..n] == PrintNumber(w.lo) && s[n + 1..] == PrintNumber(w.hi.value);
    } else {
      CleanOfOne(PrintNumber(w.lo), '-');
      assert w.Core() == PrintNumber(w.lo);
    }
  }

  lemma {:induction false} SplitWritten(items: seq<Written>)
    requires items != [] && forall w :: w in items ==> w.Valid()
    ensures Split(PrintAll(items), ",") == Prints(items)
  {
    hide Split, Blank, Written.Core;
    var w := items[0];
    assert w in items;
    CoreEnds(w);
    CleanOfOne(w.Print(), ',');
    if |items| == 1 {
      SplitOnce(w.Print(), ",");
      assert items[1..] == [];
    } else {
      SplitBehind(w.Print(), ",", PrintAll(items[1..]));
      SplitWritten(items[1..]);
    }
  }

  predicate InRange(w: Written) {
    1 <= w.lo <= w.High() <= MAX_PORT
  }

  lemma {:induction false} PrintsAt(items: seq<Written>, i: nat)
    requires i < |items|
    ensures |Prints(items)| == |items| && Prints(items)[i] == items[i].Print()
    decreases |items|
  {
    if i > 0 {
      PrintsAt(items[1..], i - 1);
    } else if |items| > 1 {
      PrintsAt(items[1..], 0);
    }
  }

  lemma ReadWritten(w: Written)
    requires w.Valid()
    ensures ReadItem(Trim(w.Print())) == if InRange(w) then Range(w.lo, w.High()) else OutsideOrReversed
  {
    hide Trim, Written.Core, Written.Print, ReadItem;
    TrimWritten(w);
    ReadCore(w);
  }

  lemma {:induction false} WrittenRefusal(items: seq<Written>)
    requires forall w :: w in items ==> w.Valid()
    ensures FirstRefusal(Prints(items)).None? <==> forall w :: w in items ==> InRange(w)
  {
    hide ReadItem, Trim, Written.Print, Written.Valid, InRange;
    if items != [] {
      assert items[0] in items;
      ReadWritten(items[0]);
      WrittenRefusal(items[1..]);
      assert Prints(items)[1..] == Prints(items[1..]);
    }
  }

  /** A list of ranges, written out in decimal with any blanks around the items, is read back: refused exactly
      when some range is empty or leaves 1-65535, and otherwise covering just the ports of the ranges. */
  lemma ParseUndoesPrint(items: seq<Written>)
    requires items != [] && forall w :: w in items ==> w.Valid()
    ensures var pieces := Split(PrintAll(items), ",");
            && Trim(PrintAll(items)) != ""
            && (FirstRefusal(pieces).None? <==> forall w :: w in items ==> InRange(w))
            && forall p: nat :: Covered(pieces, p) <==> exists w :: w in items && InRange(w) && w.lo <= p <= w.High()
  {
    hide Split, ReadItem, Trim, Written.Print, Written.Valid;
    SplitWritten(items);
    WrittenRefusal(items);
    NotBlank(items);
    var pieces := Prints(items);
    forall i | 0 <= i < |items|
      ensures |pieces| == |items|
      ensures ReadItem(Trim(pieces[i])) ==
              if InRange(items[i]) then Range(items[i].lo, items[i].High()) else OutsideOrReversed
    {
      PrintsAt(items, i);
      ReadWritten(items[i]);
    }
    PrintsAt(items, 0);
    forall p: nat, w | w in items && InRange(w) && w.lo <= p <= w.High() ensures Covered(pieces, p) {
      var i :| 0 <= i < |items| && items[i] == w;
      assert ReadItem(Trim(pieces[i])).Range?;
    }
  }

  lemma NotBlank(items: seq<Written>)
    requires items != [] && items[0].Valid()
    ensures Trim(PrintAll(items)) != ""
  {
    hide Blank, Written.Core;
    var w := items[0];
    CoreEnds(w);
    var tail := if |items| == 1 then w.after else w.after + "," + PrintAll(items[1..]);
    assert PrintAll(items) == w.before + (w.Core() + tail);
    StripLeftBlank(w.before, w.Core() + tail, TEXT_SPACES);
    var rest := w.Core() + tail;
    assert rest[0] == w.Core()[0];
    FirstStays(rest);
  }

  lemma {:induction false} FirstStays(s: string)
    requires s != "" && s[0] !in TEXT_SPACES
    ensures StripRight(s, TEXT_SPACES) != ""
  {
    if s[|s| - 1] in TEXT_SPACES {
      FirstStays(s[..|s| - 1]);
    }
  }

  // ----- the scan

  predicate NonDescending(s: seq<nat>) {
    forall i, j :: 0 <= i < j < |s| ==> s[i] <= s[j]
  }

  function Insert(s: seq<nat>, x: nat): (r: seq<nat>)
    requires NonDescending(s)
    ensures NonDescending(r) && multiset(r) == multiset(s) + multiset{x}
    ensures forall y :: y in r <==> y in s || y == x
  {
    if s == [] || x <= s[0] then
      InFront(x, s);
      [x] + s
    else
      var rest := Insert(s[1..], x);
      assert s == [s[0]] + s[1..];
      InFront(s[0], rest);
      [s[0]] + rest
  }

  lemma InFront(x: nat, s: seq<nat>)
    requires NonDescending(s) && forall y :: y in s ==> x <= y
    ensures NonDescending([x] + s)
  {
    assert forall j :: 0 <= j < |s| ==> s[j] in s;
  }

  function Sort(s: seq<nat>): (r: seq<nat>)
    ensures NonDescending(r) && multiset(r) == multiset(s)
  {
    if s == [] then []
    else
      assert s == [s[0]] + s[1..];
      Insert(Sort(s[1..]), s[0])
  }

  /** The accepting ports among the finished ones, the jobs being numbered in the order of the list. */
  function OpenOf(ports: seq<nat>, accepts: nat -> bool, finished: set<nat>, n: nat): seq<nat>
    requires n <= |ports|
  {
    if n == 0 then []
    else OpenOf(ports, accepts, finished, n - 1)
         + if n - 1 in finished && accepts(ports[n - 1]) then [ports[n - 1]] else []
  }

  lemma OneAppended(s: seq<nat>, x: nat)
    ensures multiset(s + [x]) == multiset(s) + multiset{x}
  {
  }

  /** What a finished job adds to a list of open ports. */
  function Opened(ports: seq<nat>, accepts: nat -> bool, job: nat): multiset<nat>
    requires job < |ports|
  {
    if accepts(ports[job]) then multiset{ports[job]} else multiset{}
  }

  /** How many finished jobs below `n` found the port open. */
  function Hits(ports: seq<nat>, accepts: nat -> bool, finished: set<nat>, n: nat, p: nat): nat
    requires n <= |ports|
  {
    if n == 0 then 0
    else Hits(ports, accepts, finished, n - 1, p)
         + if n - 1 in finished && accepts(ports[n - 1]) && ports[n - 1] == p then 1 else 0
  }

  function Times(s: seq<nat>, p: nat): nat {
    multiset(s)[p]
  }

  lemma TimesAppended(s: seq<nat>, x: nat, p: nat)
    ensures Times(s + [x], p) == Times(s, p) + if x == p then 1 else 0
    ensures Times([], p) == 0
  {
    OneAppended(s, x);
  }

  lemma {:induction false} OpenHits(ports: seq<nat>, accepts: nat -> bool, finished: set<nat>, n: nat, p: nat)
    requires n <= |ports|
    ensures Times(OpenOf(ports, accepts, finished, n), p) == Hits(ports, accepts, finished, n, p)
  {
    hide Times, OpenOf;
    if n > 0 {
      OpenHits(ports, accepts, finished, n - 1, p);
      OpenNext(ports, accepts, finished, n - 1);
      TimesAppended(OpenOf(ports, accepts, finished, n - 1), ports[n - 1], p);
    } else {
      OpenNone(ports, accepts, finished);
      TimesAppended([], 0, p);
    }
  }

  lemma OpenNone(ports: seq<nat>, accepts: nat -> bool, finished: set<nat>)
    ensures OpenOf(ports, accepts, finished, 0) == []
  {
  }

  lemma OpenNext(ports: seq<nat>, accepts: nat -> bool, finished: set<nat>, n: nat)
    requires n < |ports|
    ensures var before, after := OpenOf(ports, accepts, finished, n), OpenOf(ports, accepts, finished, n + 1);
            after == if n in finished && accepts(ports[n]) then before + [ports[n]] else before
  {
    assert OpenOf(ports, accepts, finished, n) + [] == OpenOf(ports, accepts, finished, n);
  }

  lemma {:induction false} HitsGrow(ports: seq<nat>, accepts: nat -> bool, finished: set<nat>, job: nat, n: nat, p: nat)
    requires n <= |ports| && job < |ports| && job !in finished
    ensures Hits(ports, accepts, finished + {job}, n, p) ==
            Hits(ports, accepts, finished, n, p) + if job < n && accepts(ports[job]) && ports[job] == p then 1 else 0
  {
    if n > 0 {
      HitsGrow(ports, accepts, finished, job, n - 1, p);
    }
  }

  lemma OpenGrows(ports: seq<nat>, accepts: nat -> bool, finished: set<nat>, job: nat)
    requires job < |ports| && job !in finished
    ensures multiset(OpenOf(ports, accepts, finished + {job}, |ports|)) ==
            multiset(OpenOf(ports, accepts, finished, |ports|)) + Opened(ports, accepts, job)
  {
    hide OpenOf, Hits;
    forall p: nat
      ensures multiset(OpenOf(ports, accepts, finished + {job}, |ports|))[p] ==
              multiset(OpenOf(ports, accepts, finished, |ports|))[p] + Opened(ports, accepts, job)[p]
    {
      OpenHits(ports, accepts, finished, |ports|, p);
      OpenHits(ports, accepts, finished + {job}, |ports|, p);
      HitsGrow(ports, accepts, finished, job, |ports|, p);
    }
  }

  /** Every port is unsubmitted (from `next` on), in flight or finished, and only one of them. */
  ghost predicate Conserved(ports: seq<nat>, next: nat, inFlight: set<nat>, finished: set<nat>) {
    && next <= |ports| && inFlight !! finished && |inFlight| <= MAX_IN_FLIGHT
    && (forall job: nat :: job in inFlight || job in finished <==> job < next)
  }

  /** The ports found open, in whatever order the jobs finished. */
  ghost predicate Matches(found: seq<nat>, ports: seq<nat>, accepts: nat -> bool, finished: set<nat>) {
    multiset(found) == multiset(OpenOf(ports, accepts, finished, |ports|))
  }

  /** A report is about some of the jobs, those that finished: how many they are, which of their ports accept,
      and whether they are all. */
  ghost predicate ReportsOn(ports: seq<nat>, accepts: nat -> bool, finished: set<nat>, open: seq<nat>, scanned: nat,
      complete: bool) {
    && finished <= Jobs(|ports|) && scanned == |finished|
    && open == Sort(OpenOf(ports, accepts, finished, |ports|))
    && (complete <==> finished == Jobs(|ports|))
  }

  /** The k-th reading of the clock. */
  type Clock = nat -> real

  /** What the n-th wait for some jobs has done, of those. */
  type Waits = (nat, set<nat>) -> set<nat>

  /** A reading after which nothing is submitted. */
  predicate Late(clock: Clock, k: nat, deadline: real) {
    clock(k) + 1.0 > deadline
  }

  ghost predicate EverLate(clock: Clock, deadline: real) {
    exists k: nat :: Late(clock, k, deadline)
  }

  /** A wait that ran into its timeout, with every job still running. */
  ghost predicate EverStuck(waits: Waits) {
    exists n: nat, jobs: set<nat> :: jobs != {} && waits(n, jobs) * jobs == {}
  }

  /** The report of a scan is about the jobs that finished, and those are all of them unless a reading of the clock came
      too late or a wait ran into its timeout. */
  method Scan(ports: seq<nat>, accepts: nat -> bool, deadline: real, clock: Clock, waits: Waits)
      returns (open: seq<nat>, scanned: nat, complete: bool)
    ensures exists finished :: ReportsOn(ports, accepts, finished, open, scanned, complete)
    ensures complete || EverLate(clock, deadline) || EverStuck(waits)
  {
    hide Sort;
    ghost var finished: set<nat>;
    var found: seq<nat> := [];
    var next, readings, n := 0, 0, 0;
    var inFlight: set<nat> := {};
    scanned, finished := 0, {};
    NothingOpen(ports, accepts, |ports|);
    while true
      invariant Conserved(ports, next, inFlight, finished)
      invariant scanned == |finished|
      invariant Matches(found, ports, accepts, finished)
      decreases |ports| - next + |inFlight|, |ports| - |finished|
    {
      next, inFlight, readings := Fill(ports, next, inFlight, finished, deadline, clock, readings);
      if inFlight == {} {
        assert next == |ports| || EverLate(clock, deadline);
        break;
      }
      var done := waits(n, inFlight) * inFlight;
      n := n + 1;
      if done == {} {
        break;
      }
      inFlight, scanned, found, finished := Collect(ports, accepts, next, inFlight, done, scanned, found, finished);
    }
    JobsCount(finished, |ports|);
    complete := scanned == |ports|;
    open := Sort(found);
    SortIsUnique(found, OpenOf(ports, accepts, finished, |ports|));
    assert ReportsOn(ports, accepts, finished, open, scanned, complete);
  }

  /** Submits ports in the order of the list while there is room and time; each goes in once, after a reading of the
      clock that was in time, and it ends with the pool full, the list empty, or a reading that was late. */
  method Fill(ports: seq<nat>, next: nat, inFlight: set<nat>, ghost finished: set<nat>, deadline: real,
              clock: Clock, readings: nat)
    returns (next': nat, inFlight': set<nat>, readings': nat)
    requires Conserved(ports, next, inFlight, finished)
    ensures Conserved(ports, next', inFlight', finished)
    ensures next <= next' && inFlight <= inFlight' && |ports| - next' + |inFlight'| == |ports| - next + |inFlight|
    ensures forall k: nat :: readings <= k < readings + (next' - next) ==> !Late(clock, k, deadline)
    ensures |inFlight'| == 128 || next' == |ports| || Late(clock, readings + (next' - next), deadline)
    ensures readings' == readings + (next' - next) + if |inFlight'| == 128 then 0 else 1
  {
    next', inFlight', readings' := next, inFlight, readings;
    while |inFlight'| < MAX_IN_FLIGHT
      invariant Conserved(ports, next', inFlight', finished)
      invariant next <= next' && inFlight <= inFlight' && |inFlight'| - next' == |inFlight| - next
      invariant readings' == readings + (next' - next)
      invariant forall k: nat :: readings <= k < readings' ==> !Late(clock, k, deadline)
      decreases |ports| - next'
    {
      var now := clock(readings');
      readings' := readings' + 1;
      if !(now + 1.0 <= deadline) || next' == |ports| {
        break;
      }
      inFlight' := inFlight' + {next'};
      next' := next' + 1;
    }
  }

  /** Takes the finished jobs out of the pool, in any order. */
  method Collect(ports: seq<nat>, accepts: nat -> bool, next: nat, inFlight: set<nat>, done: set<nat>,
                 scanned: nat, found: seq<nat>, ghost finished: set<nat>)
    returns (inFlight': set<nat>, scanned': nat, found': seq<nat>, ghost finished': set<nat>)
    requires Conserved(ports, next, inFlight, finished) && done <= inFlight
    requires scanned == |finished| && Matches(found, ports, accepts, finished)
    ensures inFlight' == inFlight - done && finished' == finished + done && scanned' == |finished'|
    ensures Conserved(ports, next, inFlight', finished') && |inFlight'| == |inFlight| - |done|
    ensures Matches(found', ports, accepts, finished')
  {
    hide Matches, Conserved, Moving;
    inFlight', scanned', found', finished' := inFlight, scanned, found, finished;
    var todo := done;
    NothingMoved(inFlight, done, finished);
    while todo != {}
      invariant Moving(inFlight, done, finished, todo, inFlight', finished')
      invariant Conserved(ports, next, inFlight', finished')
      invariant scanned' == |finished'|
      invariant Matches(found', ports, accepts, finished')
      decreases |todo|
    {
      var job :| job in todo;
      StillInFlight(inFlight, done, finished, todo, inFlight', finished', job);
      MoveJob(ports, next, inFlight', finished', job);
      MoveSets(inFlight, done, finished, todo, inFlight', finished', job);
      MatchesNext(found', ports, accepts, finished', job);
      todo := todo - {job};
      inFlight' := inFlight' - {job};
      finished' := finished' + {job};
      scanned' := scanned' + 1;
      if accepts(ports[job]) {
        found' := found' + [ports[job]];
      }
    }
    AllMoved(inFlight, done, finished, inFlight', finished');
  }

  lemma MatchesNext(found: seq<nat>, ports: seq<nat>, accepts: nat -> bool, finished: set<nat>, job: nat)
    requires Matches(found, ports, accepts, finished) && job < |ports| && job !in finished
    ensures Matches(if accepts(ports[job]) then found + [ports[job]] else found, ports, accepts, finished + {job})
  {
    OpenGrows(ports, accepts, finished, job);
    OneAppended(found, ports[job]);
  }

  /** All but the jobs still to do have been moved over. */
  ghost predicate Moving(inFlight: set<nat>, done: set<nat>, finished: set<nat>,
                         todo: set<nat>, inFlight': set<nat>, finished': set<nat>) {
    && todo <= inFlight' && inFlight' - todo == inFlight - done && finished' + todo == finished + done
    && |inFlight'| == |inFlight| - |done| + |todo|
  }

  lemma NothingMoved(inFlight: set<nat>, done: set<nat>, finished: set<nat>)
    requires done <= inFlight
    ensures Moving(inFlight, done, finished, done, inFlight, finished)
  {
  }

  lemma AllMoved(inFlight: set<nat>, done: set<nat>, finished: set<nat>, inFlight': set<nat>, finished': set<nat>)
    requires Moving(inFlight, done, finished, {}, inFlight', finished')
    ensures inFlight' == inFlight - done && finished' == finished + done && |inFlight'| == |inFlight| - |done|
  {
  }

  lemma MoveSets(inFlight: set<nat>, done: set<nat>, finished: set<nat>,
                 todo: set<nat>, inFlight': set<nat>, finished': set<nat>, job: nat)
    requires Moving(inFlight, done, finished, todo, inFlight', finished') && job in todo && job !in finished'
    ensures job in inFlight' && Moving(inFlight, done, finished, todo - {job}, inFlight' - {job}, finished' + {job})
  {
  }

  lemma StillInFlight(inFlight: set<nat>, done: set<nat>, finished: set<nat>,
                      todo: set<nat>, inFlight': set<nat>, finished': set<nat>, job: nat)
    requires Moving(inFlight, done, finished, todo, inFlight', finished') && job in todo
    ensures job in inFlight'
  {
  }

  lemma MoveJob(ports: seq<nat>, next: nat, inFlight: set<nat>, finished: set<nat>, job: nat)
    requires Conserved(ports, next, inFlight, finished) && job in inFlight
    ensures job < |ports| && job !in finished && Conserved(ports, next, inFlight - {job}, finished + {job})
  {
  }

  lemma {:induction false} NothingOpen(ports: seq<nat>, accepts: nat -> bool, n: nat)
    requires n <= |ports|
    ensures OpenOf(ports, accepts, {}, n) == []
  {
    if n > 0 {
      NothingOpen(ports, accepts, n - 1);
    }
  }

  function Jobs(n: nat): (s: set<nat>)
    ensures |s| == n && forall job: nat :: job in s <==> job < n
  {
    if n == 0 then {} else Jobs(n - 1) + {n - 1}
  }

  lemma JobsCount(finished: set<nat>, n: nat)
    requires forall job :: job in finished ==> job < n
    ensures |finished| == n <==> finished == Jobs(n)
  {
    if finished != Jobs(n) {
      assert finished < Jobs(n);
      SmallerSet(finished, Jobs(n));
    }
  }

  lemma SmallerSet(a: set<nat>, b: set<nat>)
    requires a < b
    ensures |a| < |b|
  {
    var x :| x in b && x !in a;
    assert |b - a| > 0;
    assert |a + (b - a)| == |a| + |b - a| && a + (b - a) == b;
  }

  lemma FirstIsLeast(a: seq<nat>, b: seq<nat>)
    requires NonDescending(a) && a != [] && b != [] && multiset(a) == multiset(b)
    ensures a[0] <= b[0]
  {
    assert b[0] in multiset(b);
    assert b[0] in a;
  }

  lemma TailOf(a: seq<nat>)
    requires a != []
    ensures multiset(a[1..]) == multiset(a) - multiset{a[0]}
  {
    assert a == [a[0]] + a[1..];
  }

  lemma {:induction false} SortedIsUnique(a: seq<nat>, b: seq<nat>)
    requires NonDescending(a) && NonDescending(b) && multiset(a) == multiset(b)
    ensures a == b
  {
    assert |a| == |multiset(a)| == |multiset(b)| == |b|;
    if a != [] {
      FirstIsLeast(a, b);
      FirstIsLeast(b, a);
      TailOf(a);
      TailOf(b);
      SortedIsUnique(a[1..], b[1..]);
      assert a == [a[0]] + a[1..] && b == [b[0]] + b[1..];
    }
  }

  lemma SortIsUnique(a: seq<nat>, b: seq<nat>)
    requires multiset(a) == multiset(b)
    ensures Sort(a) == Sort(b)
  {
    SortedIsUnique(Sort(a), Sort(b));
  }

  lemma {:induction false} OpenBelow(ports: seq<nat>, accepts: nat -> bool, finished: set<nat>, n: nat)
    requires n <= |ports| && Ascending(ports)
    ensures Ascending(OpenOf(ports, accepts, finished, n))
    ensures forall p :: p in OpenOf(ports, accepts, finished, n) <==>
              exists job :: 0 <= job < n && job in finished && accepts(ports[job]) && ports[job] == p
  {
    if n > 0 {
      OpenBelow(ports, accepts, finished, n - 1);
      var rest := OpenOf(ports, accepts, finished, n - 1);
      assert forall j :: 0 <= j < |rest| ==> rest[j] in rest;
    }
  }

  /** Of a list as the parser yields it, the ports reported open are exactly those that accept among the finished
      ones, each once and in ascending order; of a complete scan, among all. */
  lemma OpenIsExact(ports: seq<nat>, accepts: nat -> bool, finished: set<nat>, open: seq<nat>, scanned: nat,
      complete: bool)
    requires Ascending(ports) && ReportsOn(ports, accepts, finished, open, scanned, complete)
    ensures Ascending(open)
    ensures forall p :: p in open <==>
        exists job :: 0 <= job < |ports| && job in finished && accepts(ports[job]) && ports[job] == p
    ensures complete ==> forall p :: p in open <==> p in ports && accepts(p)
  {
    hide Sort, OpenOf, Jobs;
    var all := OpenOf(ports, accepts, finished, |ports|);
    OpenBelow(ports, accepts, finished, |ports|);
    SortIsSorted(all);
    SortedIsUnique(open, all);
  }

  lemma SortIsSorted(s: seq<nat>)
    ensures NonDescending(Sort(s)) && multiset(Sort(s)) == multiset(s)
  {
  }
}
