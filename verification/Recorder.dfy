/**
 The serial recorder of a slot (pi/portal.py, `_start_recorder`) and the request for its last lines
 (`_handle_serial_output`).

 A byte is a character; `decode` is the decoder of a line's bytes, any function.
 */
module Recorder {
  import opened Options
  import opened Sequences

  const CAPACITY := 1000
  const NEWLINE: string := "\n"

  datatype Entry = Entry(ts: real, text: string)

  type Decoder = string -> string

  /** The text of a line; trailing carriage returns are no part of it. */
  function Text(decode: Decoder, raw: string): string {
    StripRight(decode(raw), {'\r'})
  }

  function NonEmpty(decode: Decoder, raws: seq<string>): seq<string> {
    if raws == [] then []
    else (if Text(decode, raws[0]) != "" then [Text(decode, raws[0])] else []) + NonEmpty(decode, raws[1..])
  }

  /** The lines of a byte stream that were finished, and the unfinished tail. */
  function Lines(decode: Decoder, stream: string): seq<string> {
    var pieces := Split(stream, NEWLINE);
    NonEmpty(decode, pieces[..|pieces| - 1])
  }

  function Tail(stream: string): string {
    var pieces := Split(stream, NEWLINE);
    pieces[|pieces| - 1]
  }

  function Texts(entries: seq<Entry>): seq<string> {
    seq(|entries|, i requires 0 <= i < |entries| => entries[i].text)
  }

  class Recorder {
    var buf: string
    var ring: seq<Entry>
    /** Everything read, and everything ever recorded. */
    ghost var stream: string
    ghost var history: seq<Entry>

    ghost predicate Valid(decode: Decoder)
      reads this
    {
      && buf == Tail(stream)
      && Texts(history) == Lines(decode, stream)
      && ring == Last(history, CAPACITY)
    }

    constructor (ghost decode: Decoder)
      ensures Valid(decode) && stream == "" && history == []
    {
      buf, ring, stream, history := "", [], "", [];
      new;
      OnePiece(decode, "");
    }

    /** A full deque drops its oldest entry. */
    method Append(e: Entry)
      requires ring == Last(history, CAPACITY)
      modifies this`ring, this`history
      ensures history == old(history) + [e] && ring == Last(history, CAPACITY)
    {
      LastPush(history, e);
      ring := ring + [e];
      if |ring| > CAPACITY {
        ring := ring[1..];
      }
      history := history + [e];
    }

    /** Takes in one chunk; `clock(k)` is the time at its k-th finished line. */
    method Feed(decode: Decoder, chunk: string, clock: nat -> real)
      requires Valid(decode)
      modifies this
      ensures Valid(decode) && stream == old(stream) + chunk && old(history) <= history
      ensures forall i :: |old(history)| <= i < |history| ==> exists k :: history[i].ts == clock(k)
      ensures Rising(clock) && UpTo(old(history), clock(0)) ==> Ordered(history)
    {
      hide Rising, UpTo, Ordered, Split, Text, Last, Lines, Tail, Texts;
      FeedStart(decode, stream, chunk);
      buf := buf + chunk;
      stream := stream + chunk;
      var k := 0;
      while true
        invariant stream == old(stream) + chunk && Tail(buf) == Tail(stream)
        invariant Texts(history) + Lines(decode, buf) == Lines(decode, stream)
        invariant ring == Last(history, CAPACITY)
        invariant old(history) <= history
        invariant forall i :: |old(history)| <= i < |history| ==> exists k :: history[i].ts == clock(k)
        invariant Rising(clock) && UpTo(old(history), clock(0)) ==> UpTo(history, clock(k))
        decreases |buf|
      {
        var at := Find(buf, NEWLINE, 0);
        if at.None? {
          OnePiece(decode, buf);
          UpToIsOrdered(history, clock(k));
          break;
        }
        TakeLine(decode, buf, at.value);
        var raw := buf[..at.value];
        buf := buf[at.value + 1..];
        var text := Text(decode, raw);
        if text != "" {
          var e := Entry(clock(k), text);
          TextsPush(history, e, Lines(decode, buf));
          UpToPush(history, clock, k, text);
          Append(e);
        } else if Rising(clock) && UpTo(history, clock(k)) {
          Wait(history, clock, k);
        }
        k := k + 1;
      }
    }
  }

  ghost predicate Rising(clock: nat -> real) {
    forall i: nat, j: nat :: i <= j ==> clock(i) <= clock(j)
  }

  ghost predicate Ordered(history: seq<Entry>) {
    forall i, j :: 0 <= i <= j < |history| ==> history[i].ts <= history[j].ts
  }

  ghost predicate UpTo(history: seq<Entry>, now: real) {
    Ordered(history) && forall i :: 0 <= i < |history| ==> history[i].ts <= now
  }

  lemma UpToIsOrdered(history: seq<Entry>, now: real)
    ensures UpTo(history, now) ==> Ordered(history)
  {
  }

  lemma UpToPush(history: seq<Entry>, clock: nat -> real, k: nat, text: string)
    ensures Rising(clock) && UpTo(history, clock(k)) ==> UpTo(history + [Entry(clock(k), text)], clock(k + 1))
  {
  }

  lemma Wait(history: seq<Entry>, clock: nat -> real, k: nat)
    requires Rising(clock) && UpTo(history, clock(k))
    ensures UpTo(history, clock(k + 1))
  {
  }

  lemma TextsPush(history: seq<Entry>, e: Entry, rest: seq<string>)
    ensures Texts(history) + ([e.text] + rest) == Texts(history + [e]) + rest
  {
  }

  lemma LastPush(history: seq<Entry>, e: Entry)
    ensures var ring := Last(history, CAPACITY) + [e];
            Last(history + [e], CAPACITY) == if |ring| > CAPACITY then ring[1..] else ring
  {
  }

  // ----- pieces and lines

  /** Without a newline there is one piece, which is the tail. */
  lemma OnePiece(decode: Decoder, s: string)
    requires !Occurs(NEWLINE, s)
    ensures Tail(s) == s && Lines(decode, s) == []
  {
    SplitOnce(s, NEWLINE);
  }

  /** The next line off a buffer. */
  lemma TakeLine(decode: Decoder, s: string, at: nat)
    requires Find(s, NEWLINE, 0) == Some(at)
    ensures at < |s| && Tail(s) == Tail(s[at + 1..])
    ensures var text := Text(decode, s[..at]);
            Lines(decode, s) == (if text != "" then [text] else []) + Lines(decode, s[at + 1..])
  {
    var pieces := Split(s[at + 1..], NEWLINE);
    assert Split(s, NEWLINE) == [s[..at]] + pieces;
    hide Split, Text;
    NextPiece(decode, s[..at], pieces);
  }

  lemma NextPiece(decode: Decoder, raw: string, pieces: seq<string>)
    requires pieces != []
    ensures var all := [raw] + pieces;
            && all[|all| - 1] == pieces[|pieces| - 1]
            && NonEmpty(decode, all[..|all| - 1])
                 == (if Text(decode, raw) != "" then [Text(decode, raw)] else [])
                    + NonEmpty(decode, pieces[..|pieces| - 1])
  {
    hide Text;
    var init := ([raw] + pieces)[..|pieces|];
    assert init[0] == raw && init[1..] == pieces[..|pieces| - 1];
  }

  /** Reading on from the unfinished tail is reading the whole stream. */
  lemma {:induction false} FeedStart(decode: Decoder, a: string, b: string)
    ensures Tail(a + b) == Tail(Tail(a) + b)
    ensures Lines(decode, a + b) == Lines(decode, a) + Lines(decode, Tail(a) + b)
    decreases |a|
  {
    hide Split, Text, Lines, Tail;
    match Find(a, NEWLINE, 0)
    case None =>
      OnePiece(decode, a);
    case Some(at) =>
      TakeLine(decode, a, at);
      FindAhead(a, b, at);
      TakeLine(decode, a + b, at);
      assert (a + b)[..at] == a[..at] && (a + b)[at + 1..] == a[at + 1..] + b;
      FeedStart(decode, a[at + 1..], b);
  }

  lemma FindAhead(a: string, b: string, at: nat)
    requires Find(a, NEWLINE, 0) == Some(at)
    ensures Find(a + b, NEWLINE, 0) == Some(at)
  {
    forall q | 0 <= q < |a| ensures Stands(a + b, q, NEWLINE) == Stands(a, q, NEWLINE) {
      assert (a + b)[q..q + 1] == a[q..q + 1];
    }
    FirstAt(a + b, NEWLINE, at);
  }

  function Joined(chunks: seq<string>): string {
    if chunks == [] then "" else chunks[0] + Joined(chunks[1..])
  }

  /** The lines that reads of these chunks finish, one read after the other. */
  function Recorded(decode: Decoder, tail: string, chunks: seq<string>): seq<string>
    decreases |chunks|
  {
    if chunks == [] then []
    else Lines(decode, tail + chunks[0]) + Recorded(decode, Tail(tail + chunks[0]), chunks[1..])
  }

  /** However a stream is cut into reads, the same lines are recorded: those of the uncut stream. */
  lemma {:induction false} CutDoesNotMatter(decode: Decoder, tail: string, chunks: seq<string>)
    requires !Occurs(NEWLINE, tail)
    ensures Recorded(decode, tail, chunks) == Lines(decode, tail + Joined(chunks))
    decreases |chunks|
  {
    hide Split, Text, Lines, Tail;
    if chunks == [] {
      OnePiece(decode, tail);
      assert tail + "" == tail;
    } else {
      var a, b := tail + chunks[0], Joined(chunks[1..]);
      FeedStart(decode, a, b);
      TailIsUnfinished(a);
      CutDoesNotMatter(decode, Tail(a), chunks[1..]);
      assert tail + Joined(chunks) == a + b;
    }
  }

  lemma {:induction false} TailIsUnfinished(s: string)
    ensures !Occurs(NEWLINE, Tail(s))
  {
    hide Occurs, Text;
    if Occurs(NEWLINE, s) {
      OccursMeansFound(s);
      var at := Find(s, NEWLINE, 0).value;
      TakeLine(x => x, s, at);
      TailIsUnfinished(s[at + 1..]);
    } else {
      OnePiece(x => x, s);
    }
  }

  lemma OccursMeansFound(s: string)
    ensures Occurs(NEWLINE, s) == Find(s, NEWLINE, 0).Some?
  {
  }

  // ----- what is written is what is recorded

  /** A line as a device writes it: its text, some carriage returns, a newline. */
  datatype Written = Written(text: string, crs: nat) {
    function Raw(): string {
      text + Returns(crs)
    }

    /** The text is one line, and its bytes decode to themselves. */
    predicate Plain(decode: Decoder) {
      '\n' !in text && (text == "" || text[|text| - 1] != '\r') && decode(Raw()) == Raw()
    }
  }

  function Returns(n: nat): (s: string)
    ensures |s| == n && forall i :: 0 <= i < n ==> s[i] == '\r'
  {
    seq(n, i => '\r')
  }

  function Stream(lines: seq<Written>, tail: string): string {
    if lines == [] then tail else lines[0].Raw() + "\n" + Stream(lines[1..], tail)
  }

  /** The texts that are not empty. */
  function Solid(lines: seq<Written>): seq<string> {
    if lines == [] then [] else (if lines[0].text == "" then [] else [lines[0].text]) + Solid(lines[1..])
  }

  lemma TextOfRaw(decode: Decoder, line: Written)
    requires line.Plain(decode)
    ensures Text(decode, line.Raw()) == line.text
  {
    StripRightBlank(line.text, Returns(line.crs), {'\r'});
    StripRightEnd(line.text, {'\r'});
  }

  lemma FirstNewline(raw: string, rest: string)
    requires '\n' !in raw
    ensures Find(raw + "\n" + rest, NEWLINE, 0) == Some(|raw|)
  {
    var s := raw + "\n" + rest;
    forall q: nat | q < |s| ensures Stands(s, q, NEWLINE) == (s[q] == '\n') {
      assert s[q..q + 1] == [s[q]];
    }
    FirstAt(s, NEWLINE, |raw|);
  }

  /** Of any lines that a device writes, the ring gets the texts in order, without the carriage returns at their ends
      and without the empty ones; a line without its newline waits. */
  lemma {:induction false} LinesArrive(decode: Decoder, lines: seq<Written>, tail: string)
    requires (forall i :: 0 <= i < |lines| ==> lines[i].Plain(decode)) && '\n' !in tail
    ensures Lines(decode, Stream(lines, tail)) == Solid(lines) && Tail(Stream(lines, tail)) == tail
  {
    hide Text, Lines, Tail, Split;
    if lines == [] {
      forall q: nat ensures !Stands(tail, q, NEWLINE) {
        if q + 1 <= |tail| {
          assert tail[q..q + 1] == [tail[q]];
        }
      }
      OnePiece(decode, tail);
    } else {
      var raw, rest := lines[0].Raw(), Stream(lines[1..], tail);
      var s := Stream(lines, tail);
      assert '\n' !in raw;
      FirstNewline(raw, rest);
      TakeLine(decode, s, |raw|);
      assert s[..|raw|] == raw && s[|raw| + 1..] == rest;
      TextOfRaw(decode, lines[0]);
      LinesArrive(decode, lines[1..], tail);
    }
  }

  // ----- the request

  /** The entries later than `since`. */
  function Fresh(entries: seq<Entry>, since: real): seq<Entry> {
    if entries == [] then []
    else (if entries[0].ts > since then [entries[0]] else []) + Fresh(entries[1..], since)
  }

  /** Python's `s[-n:]`. */
  function FromEnd<T>(s: seq<T>, n: int): seq<T> {
    if n > 0 then Last(s, n) else if -n <= |s| then s[-n..] else []
  }

  /** A request reads the ring. */
  method SerialOutput(ring: seq<Entry>, maxLines: int, since: real) returns (lines: seq<Entry>)
    ensures lines == FromEnd(Fresh(ring, since), maxLines)
  {
    hide FromEnd;
    var later := [];
    for i := 0 to |ring|
      invariant later == Fresh(ring[..i], since)
    {
      FreshNext(ring, i, since);
      if ring[i].ts > since {
        later := later + [ring[i]];
      }
    }
    assert ring[..|ring|] == ring;
    lines := FromEnd(later, maxLines);
  }

  lemma {:induction false} FreshNext(entries: seq<Entry>, i: nat, since: real)
    requires i < |entries|
    ensures Fresh(entries[..i + 1], since) ==
            Fresh(entries[..i], since) + if entries[i].ts > since then [entries[i]] else []
  {
    if i == 0 {
      assert entries[..1] == [entries[0]] && entries[..1][1..] == [];
    } else {
      assert entries[..i + 1][1..] == entries[1..][..i] && entries[..i][1..] == entries[1..][..i - 1];
      FreshNext(entries[1..], i - 1, since);
    }
  }

  /** In an ordered history, what is later than `since` is an end of it. */
  lemma {:induction false} FreshFrom(h: seq<Entry>, since: real, k: nat, m: nat)
    requires k <= |h| && m <= |h| && forall i :: 0 <= i < |h| ==> (h[i].ts > since <==> k <= i)
    ensures Fresh(h[m..], since) == h[if m < k then k else m..]
    decreases |h| - m
  {
    if m < |h| {
      assert h[m..][1..] == h[m + 1..];
      FreshFrom(h, since, k, m + 1);
    }
  }

  lemma {:induction false} FirstLater(h: seq<Entry>, since: real) returns (k: nat)
    requires Ordered(h)
    ensures k <= |h| && forall i :: 0 <= i < |h| ==> (h[i].ts > since <==> k <= i)
  {
    if h == [] {
      k := 0;
    } else if h[|h| - 1].ts <= since {
      k := |h|;
    } else {
      var h' := h[..|h| - 1];
      k := FirstLater(h', since);
      assert forall i :: 0 <= i < |h'| ==> h'[i] == h[i];
    }
  }

  /** With times that never go back, the ring answers like the unbounded history: the last `n` lines since then,
      or the last thousand if more were asked for. */
  lemma RingAnswersLikeHistory(history: seq<Entry>, n: int, since: real)
    requires Ordered(history) && n >= 1
    ensures FromEnd(Fresh(Last(history, CAPACITY), since), n) == FromEnd(Fresh(history, since), Min(n, 1000))
  {
    hide Fresh, Last, Ordered, FromEnd;
    var k := FirstLater(history, since);
    var m := if |history| > CAPACITY then |history| - CAPACITY else 0;
    LastIsFrom(history, CAPACITY);
    FreshFrom(history, since, k, m);
    FreshFrom(history, since, k, 0);
    LastOfSuffix(history, k, m, n, CAPACITY);
    FromEndIsLast(history[if m < k then k else m..], n);
    FromEndIsLast(history[if 0 < k then k else 0..], Min(n, CAPACITY));
  }

  lemma FromEndIsLast<T>(s: seq<T>, n: nat)
    requires n > 0
    ensures FromEnd(s, n) == Last(s, n)
  {
  }

  lemma LastIsFrom<T>(s: seq<T>, c: nat)
    ensures Last(s, c) == s[if |s| > c then |s| - c else 0..] && s[0..] == s
  {
  }

  lemma LastOfSuffix<T>(s: seq<T>, k: nat, m: nat, n: nat, c: nat)
    requires k <= |s| && m == if |s| > c then |s| - c else 0
    ensures Last(s[if m < k then k else m..], n) == Last(s[if 0 < k then k else 0..], Min(n, c))
  {
  }

  /** The lines later than a time, whichever they are. */
  lemma {:induction false} FreshIs(entries: seq<Entry>, since: real, e: Entry)
    ensures multiset(Fresh(entries, since))[e] == if e.ts > since then multiset(entries)[e] else 0
  {
    if entries != [] {
      assert entries == [entries[0]] + entries[1..];
      FreshIs(entries[1..], since, e);
    }
  }

  /** A positive number of lines is taken from the end, and all of them if there are fewer. */
  lemma LastLines<T>(front: seq<T>, s: seq<T>, n: nat)
    requires n > 0 && (|s| == n || (front == [] && |s| <= n))
    ensures FromEnd(front + s, n) == s
  {
  }

  /** Zero lines are asked for and the whole ring is the answer; a negative number drops lines from the front. */
  lemma OddRequests(history: seq<Entry>, n: nat, since: real)
    requires Ordered(history)
    ensures var later := FromEnd(Fresh(history, since), 1000);
            FromEnd(Fresh(Last(history, CAPACITY), since), 0 - n) == if n <= |later| then later[n..] else []
  {
    RingAnswersLikeHistory(history, CAPACITY, since);
    var ring := Last(history, CAPACITY);
    FreshNoLonger(ring, since);
  }

  lemma {:induction false} FreshNoLonger(entries: seq<Entry>, since: real)
    ensures |Fresh(entries, since)| <= |entries|
  {
    if entries != [] {
      FreshNoLonger(entries[1..], since);
    }
  }
}
