/**
 The numbered ring of a live receiver session and the clients that poll it
 (pi/sdr_controller.py, `_spawn_live`, `_live_reader`, `live_events`).

 The payload of an entry (text and decoded event) is any type.  A client keeps the number of the last
 entry it was given, as the page of pi/portal.py does, and asks for everything after it.
 */
module LiveRing {
  import opened Sequences

  const CAPACITY := 600

  datatype Entry<T> = Entry(number: nat, payload: T)

  /** The whole history of a session, numbered from one. */
  function Numbered<T>(stream: seq<T>): (es: seq<Entry<T>>)
    ensures |es| == |stream|
  {
    seq(|stream|, i requires 0 <= i < |stream| => Entry(i + 1, stream[i]))
  }

  /** The entries with a number above `since`. */
  function After<T>(buf: seq<Entry<T>>, since: int): seq<Entry<T>> {
    if buf == [] then []
    else (if buf[0].number > since then [buf[0]] else []) + After(buf[1..], since)
  }

  class Live<T> {
    var buf: seq<Entry<T>>
    var count: nat
    /** What was read since the session began. */
    ghost var stream: seq<T>

    /** The buffer holds exactly the last entries, numbered without a gap up to the counter. */
    ghost predicate Valid()
      reads this
    {
      count == |stream| && buf == Last(Numbered(stream), CAPACITY)
    }

    constructor ()
      ensures Valid() && stream == []
    {
      buf, count, stream := [], 0, [];
    }

    /** The start of a session empties the ring and restarts the numbers. */
    method Restart()
      modifies this
      ensures Valid() && stream == []
    {
      buf, count, stream := [], 0, [];
    }

    /** The reader's append; a full deque drops its oldest entry. */
    method Append(x: T)
      requires Valid()
      modifies this
      ensures Valid() && stream == old(stream) + [x]
    {
      NumberedAppend(stream, x);
      count := count + 1;
      buf := buf + [Entry(count, x)];
      if |buf| > CAPACITY {
        buf := buf[1..];
      }
      stream := stream + [x];
    }

    method Events(since: int) returns (items: seq<Entry<T>>, last: nat)
      requires Valid()
      ensures last == |stream| && items == Answer(stream, since)
    {
      hide Numbered, Answer, Last;
      items := [];
      for i := 0 to |buf|
        invariant items == After(buf[..i], since)
      {
        AfterNext(buf, i, since);
        if buf[i].number > since {
          items := items + [buf[i]];
        }
      }
      assert buf[..|buf|] == buf;
      last := count;
      AnswerIsSuffix(stream, since);
    }
  }

  lemma {:induction false} AfterNext<T>(buf: seq<Entry<T>>, i: nat, since: int)
    requires i < |buf|
    ensures After(buf[..i + 1], since) == After(buf[..i], since) + if buf[i].number > since then [buf[i]] else []
  {
    if i == 0 {
      assert buf[..1] == [buf[0]] && buf[..1][1..] == [];
    } else {
      assert buf[..i + 1][1..] == buf[1..][..i] && buf[..i][1..] == buf[1..][..i - 1];
      AfterNext(buf[1..], i - 1, since);
    }
  }

  lemma NumberedAppend<T>(stream: seq<T>, x: T)
    ensures Numbered(stream + [x]) == Numbered(stream) + [Entry(|stream| + 1, x)]
  {
  }

  lemma NumberedBefore<T>(stream: seq<T>, x: T, from: nat, to: nat)
    requires from <= to <= |stream|
    ensures Numbered(stream + [x])[from..to] == Numbered(stream)[from..to]
  {
  }

  /** What a poll returns: everything after `since` that is still in the ring. */
  function Answer<T>(stream: seq<T>, since: int): seq<Entry<T>> {
    Numbered(stream)[Min(|stream|, Max(Max(0, since), |stream| - CAPACITY))..]
  }

  lemma AnswerIsSuffix<T>(stream: seq<T>, since: int)
    ensures After(Last(Numbered(stream), CAPACITY), since) == Answer(stream, since)
  {
    AfterSuffix(stream, Max(0, |stream| - CAPACITY), since);
  }

  lemma {:induction false} AfterSuffix<T>(stream: seq<T>, from: nat, since: int)
    requires from <= |stream|
    ensures After(Numbered(stream)[from..], since) == Numbered(stream)[Min(|stream|, Max(from, since))..]
    decreases |stream| - from
  {
    var es := Numbered(stream);
    if from < |stream| {
      AfterSuffix(stream, from + 1, since);
      assert es[from].number == from + 1;
      hide Numbered;
      assert es[from..][0] == es[from] && es[from..][1..] == es[from + 1..];
      assert [es[from]] + es[from + 1..] == es[from..];
    }
  }

  // ----- a client that follows a session

  datatype Action<T> = Read(x: T) | Poll

  /** A session so far, the history at the client's last poll, its number, and all it was given. */
  datatype Follower<T> = Follower(stream: seq<T>, polled: nat, since: nat, got: seq<Entry<T>>)

  function Act<T>(f: Follower<T>, a: Action<T>): Follower<T> {
    match a
    case Read(x) => f.(stream := f.stream + [x])
    case Poll =>
      var es := Answer(f.stream, f.since);
      f.(polled := |f.stream|, got := f.got + es, since := if es == [] then f.since else es[|es| - 1].number)
  }

  function Follow<T>(f: Follower<T>, run: seq<Action<T>>): Follower<T>
    decreases |run|
  {
    if run == [] then f else Follow(Act(f, run[0]), run[1..])
  }

  /** A client that enters a new session with the number `since` it kept from before, 0 if it has none. */
  function Joining<T>(since: nat): Follower<T> {
    Follower([], 0, since, [])
  }

  /** No poll of the schedule finds more than a ring of unseen entries.  Only counts matter. */
  predicate OnTime<T>(count: nat, since: nat, run: seq<Action<T>>)
    decreases |run|
  {
    run == [] ||
    match run[0]
    case Read(_) => OnTime(count + 1, since, run[1..])
    case Poll => count - since <= 600 && OnTime(count, Max(since, count), run[1..])
  }

  /** What the client should have: everything up to its last poll, save what its old number hides. */
  function Due<T>(f: Follower<T>, start: nat): seq<Entry<T>>
    requires f.polled <= |f.stream|
  {
    Numbered(f.stream)[Min(start, f.polled)..f.polled]
  }

  predicate Sound<T>(f: Follower<T>, start: nat) {
    && f.polled <= |f.stream|
    && f.since == Max(start, f.polled)
  }

  lemma ActKeepsSound<T>(f: Follower<T>, start: nat, a: Action<T>)
    requires Sound(f, start)
    ensures Sound(Act(f, a), start)
    ensures a.Poll? ==> Act(f, a).since == Max(f.since, |f.stream|)
  {
    var es := Answer(f.stream, f.since);
    if es != [] {
      assert es[|es| - 1] == Numbered(f.stream)[|f.stream| - 1];
    }
  }

  lemma DueGrows<T>(f: Follower<T>, start: nat, a: Action<T>)
    requires Sound(f, start)
    ensures Act(f, a).polled <= |Act(f, a).stream|
    ensures a.Read? ==> Due(Act(f, a), start) == Due(f, start)
    ensures a.Poll? ==> |Due(Act(f, a), start)| == |Due(f, start)| + Max(0, |f.stream| - f.since)
    ensures a.Poll? && |f.stream| - f.since <= CAPACITY ==>
            Due(Act(f, a), start) == Due(f, start) + Answer(f.stream, f.since)
    ensures |Answer(f.stream, f.since)| == Min(600, Max(0, |f.stream| - f.since))
  {
    hide Numbered;
    if a.Read? {
      NumberedBefore(f.stream, a.x, Min(start, f.polled), f.polled);
    } else {
      Pieces(Numbered(f.stream), start, f.polled, CAPACITY);
    }
  }

  /** What was due up to `from`, and the answer at the end. */
  lemma Pieces<T>(es: seq<T>, start: nat, from: nat, ring: nat)
    requires from <= |es|
    ensures var since := Max(start, from); var due := es[Min(start, from)..from];
            var answer := es[Min(|es|, Max(Max(0, since), |es| - ring))..];
            && |es[Min(start, |es|)..|es|]| == |due| + Max(0, |es| - since)
            && |answer| == Min(ring, Max(0, |es| - since))
            && (|es| - since <= ring ==> es[Min(start, |es|)..|es|] == due + answer)
  {
  }

  /** A client that is short of something never gets it later. */
  lemma {:induction false} ShortStaysShort<T>(f: Follower<T>, start: nat, run: seq<Action<T>>)
    requires Sound(f, start) && |f.got| < |Due(f, start)|
    ensures Sound(Follow(f, run), start) && |Follow(f, run).got| < |Due(Follow(f, run), start)|
    decreases |run|
  {
    if run != [] {
      ActKeepsSound(f, start, run[0]);
      DueGrows(f, start, run[0]);
      ShortStaysShort(Act(f, run[0]), start, run[1..]);
    }
  }

  lemma {:induction false} FollowFrom<T>(f: Follower<T>, start: nat, run: seq<Action<T>>)
    requires Sound(f, start) && f.got == Due(f, start)
    ensures Sound(Follow(f, run), start)
    ensures Follow(f, run).got == Due(Follow(f, run), start) <==> OnTime(|f.stream|, f.since, run)
    decreases |run|
  {
    if run != [] {
      var f' := Act(f, run[0]);
      ActKeepsSound(f, start, run[0]);
      DueGrows(f, start, run[0]);
      if run[0].Poll? && |f.stream| - f.since > CAPACITY {
        ShortStaysShort(f', start, run[1..]);
      } else {
        FollowFrom(f', start, run[1..]);
      }
    }
  }

  /** Over a whole session: a client has every entry up to its last poll, each once and in order, exactly
      when no poll came more than a ring too late. */
  lemma NothingLost<T>(run: seq<Action<T>>)
    ensures var f := Follow(Joining(0), run);
            && f.polled <= |f.stream|
            && (f.got == Numbered(f.stream)[..f.polled] <==> OnTime(0, 0, run))
  {
    var f := Follow(Joining(0), run);
    FollowFrom(Joining(0), 0, run);
    assert Numbered(f.stream)[..f.polled] == Numbered(f.stream)[0..f.polled];
  }

  /** The numbers restart with the session.  A client that kept the number `stale` is, however punctual, never
      given the first `stale` entries of the new session; if it is on time it is given all the others. */
  lemma StaleNumberHides<T>(stale: nat, run: seq<Action<T>>)
    ensures var f := Follow(Joining(stale), run);
            && f.polled <= |f.stream|
            && (f.got == Numbered(f.stream)[Min(stale, f.polled)..f.polled] <==> OnTime(0, stale, run))
            && InOrder(f, stale)
  {
    FollowFrom(Joining(stale), stale, run);
    GotInOrder(Joining(stale), stale, run);
  }

  /** What was given, late or not: true entries of the session, numbers rising. */
  ghost predicate InOrder<T>(f: Follower<T>, start: nat) {
    && (forall i :: 0 <= i < |f.got| ==> start < f.got[i].number <= f.polled)
    && (forall i :: 0 <= i < |f.got| ==>
        0 < f.got[i].number <= |f.stream| && f.got[i].payload == f.stream[f.got[i].number - 1])
    && (forall i, j :: 0 <= i < j < |f.got| ==> f.got[i].number < f.got[j].number)
  }

  lemma AnswerEntries<T>(stream: seq<T>, since: nat)
    ensures var es := Answer(stream, since);
            && (forall i :: 0 <= i < |es| ==>
                since < es[i].number <= |stream| && es[i].payload == stream[es[i].number - 1])
            && (forall i, j :: 0 <= i < j < |es| ==> es[i].number < es[j].number)
  {
  }

  lemma ActKeepsOrder<T>(f: Follower<T>, start: nat, a: Action<T>)
    requires Sound(f, start) && InOrder(f, start)
    ensures InOrder(Act(f, a), start)
  {
    hide Answer;
    if a.Poll? {
      AnswerEntries(f.stream, f.since);
    }
  }

  /** Nothing a client is given was made up, comes twice or comes out of order. */
  lemma {:induction false} GotInOrder<T>(f: Follower<T>, start: nat, run: seq<Action<T>>)
    requires Sound(f, start) && InOrder(f, start)
    ensures InOrder(Follow(f, run), start)
    decreases |run|
  {
    if run != [] {
      ActKeepsSound(f, start, run[0]);
      ActKeepsOrder(f, start, run[0]);
      GotInOrder(Act(f, run[0]), start, run[1..]);
    }
  }
}
