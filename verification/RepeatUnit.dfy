/**
 The shortest repeating unit of a received row (pi/sdr_controller.py, `_repeat_unit`): a fuzzy
 search that tolerates a short preamble and accepts a unit that rebuilds 90 per cent of what follows.
 */
module RepeatUnit {
  import opened Sequences

  const MAX_PREAMBLE := 16
  const MIN_PERIOD := 3

  /** `unit * times`. */
  function Times(unit: string, times: nat): (s: string)
    ensures |s| == times * |unit|
  {
    if times == 0 then [] else unit + Times(unit, times - 1)
  }

  /** The first `n` characters of `unit` repeated without end. */
  function Tiled(unit: string, n: nat): (s: string)
    requires unit != []
    ensures |s| == n
  {
    Enough(|unit|, n);
    Times(unit, n / |unit| + 1)[..n]
  }

  lemma Enough(size: nat, n: nat)
    requires size > 0
    ensures n <= (n / size + 1) * size
  {
    assert n == n / size * size + n % size;
    assert (n / size + 1) * size == n / size * size + size;
  }

  /** In how many of the first `k` places two strings agree. */
  function Agree(a: string, b: string, k: nat): (n: nat)
    requires k <= |a| && k <= |b|
    ensures n <= k
  {
    if k == 0 then 0 else Agree(a, b, k - 1) + if a[k - 1] == b[k - 1] then 1 else 0
  }

  /** The first `period` characters of `tail`, repeated, rebuild at least 90 per cent of it. */
  predicate Rebuilds(tail: string, period: nat)
    requires 0 < period <= |tail|
  {
    10 * Agree(Tiled(tail[..period], |tail|), tail, |tail|) >= 9 * |tail|
  }

  /** A unit that the search may report. */
  predicate Candidate(s: string, start: nat, period: nat) {
    && start < Min(MAX_PREAMBLE, |s| / 2)
    && MIN_PERIOD <= period <= (|s| - start) / 2
    && Rebuilds(s[start..], period)
  }

  /** The places behind `start` that hold what stands at the same place of the first period. */
  ghost function Matching(s: string, start: nat, period: nat): set<nat>
    requires start <= |s| && 0 < period <= |s| - start
  {
    set i: nat | i < |s| - start && s[start + i] == s[start + i % period]
  }

  /** Start and period are in the range of the search, and nine places in ten match. */
  ghost predicate Repeats(s: string, start: nat, period: nat) {
    && start < MAX_PREAMBLE && start < |s| / 2
    && MIN_PERIOD <= period <= (|s| - start) / 2
    && 10 * |Matching(s, start, period)| >= 9 * (|s| - start)
  }

  /** The repeating unit at `start` of length `period` comes before every other one. */
  ghost predicate Best(s: string, start: nat, period: nat) {
    && Repeats(s, start, period)
    && forall start': nat, period': nat :: Repeats(s, start', period') ==>
        period < period' || (period == period' && start <= start')
  }

  ghost predicate NoneIn(s: string, start: nat, from: nat, to: nat) {
    forall period: nat :: from <= period < to ==> !Candidate(s, start, period)
  }

  /** `_repeat_unit`. */
  method ShortestUnit(s: string) returns (best: string)
    ensures (best == s && forall start: nat, period: nat :: !Repeats(s, start, period))
            || exists start: nat, period: nat :: Best(s, start, period) && best == s[start..start + period]
  {
    hide Rebuilds;
    best := s;
    ghost var at := 0;
    ghost var found := false;
    for start := 0 to Min(MAX_PREAMBLE, |s| / 2)
      invariant !found ==> best == s && forall b: nat, p: nat :: b < start ==> !Candidate(s, b, p)
      invariant found ==> at < start && Candidate(s, at, |best|) && best == s[at..at + |best|]
      invariant found ==> forall b: nat, p: nat :: b < start && Candidate(s, b, p) ==>
          |best| < p || (|best| == p && at <= b)
    {
      var sub := s[start..];
      var n := |sub|;
      var period := MIN_PERIOD;
      while period <= n / 2
        invariant MIN_PERIOD <= period
        invariant NoneIn(s, start, 0, period)
      {
        if period >= |best| {
          break;
        }
        var unit := sub[..period];
        if Rebuilds(sub, period) {
          assert Candidate(s, start, period);
          best, at, found := unit, start, true;
          break;
        }
        period := period + 1;
      }
    }
    forall b: nat, p: nat ensures Candidate(s, b, p) <==> Repeats(s, b, p) {
      CandidateExactly(s, b, p);
    }
    hide Candidate, Repeats;
    if found {
      assert Best(s, at, |best|);
    }
  }

  /** The answer is determined: two best candidates are the same one. */
  lemma BestIsUnique(s: string, start: nat, period: nat, start': nat, period': nat)
    requires Best(s, start, period) && Best(s, start', period')
    ensures start == start' && period == period'
  {
  }

  lemma {:induction false} TimesAt(unit: string, times: nat, i: nat)
    requires i < times * |unit|
    ensures Times(unit, times)[i] == unit[i % |unit|]
  {
    if i >= |unit| {
      assert (times - 1) * |unit| == times * |unit| - |unit|;
      TimesAt(unit, times - 1, i - |unit|);
      ModShift(i, |unit|);
    }
  }

  lemma ModShift(i: nat, d: nat)
    requires 0 < d <= i
    ensures (i - d) % d == i % d
  {
    var q, r := (i - d) / d, (i - d) % d;
    assert i == (q + 1) * d + r;
    ModIs(i, d, q + 1, r);
  }

  lemma ModIs(i: nat, d: nat, q: nat, r: nat)
    requires d > 0 && i == q * d + r && r < d
    ensures i % d == r
  {
    var q', r' := i / d, i % d;
    assert i == q' * d + r';
    if q < q' {
      MulGap(q, q', d);
    } else if q' < q {
      MulGap(q', q, d);
    }
  }

  lemma {:induction false} AgreeCounts(a: string, b: string, k: nat)
    requires k <= |a| && k <= |b|
    ensures Agree(a, b, k) == |set i: nat | i < k && a[i] == b[i]|
  {
    var here := set i: nat | i < k && a[i] == b[i];
    if k == 0 {
      assert here == {};
    } else {
      AgreeCounts(a, b, k - 1);
      var before := set i: nat | i < k - 1 && a[i] == b[i];
      assert here == if a[k - 1] == b[k - 1] then before + {k - 1} else before;
    }
  }

  /** What the search accepts is what repeats in nine places out of ten. */
  lemma CandidateExactly(s: string, start: nat, period: nat)
    ensures Candidate(s, start, period) <==> Repeats(s, start, period)
  {
    if start < MAX_PREAMBLE && start < |s| / 2 && MIN_PERIOD <= period <= (|s| - start) / 2 {
      var tail, n := s[start..], |s| - start;
      var unit := tail[..period];
      Enough(period, n);
      forall i: nat | i < n ensures Tiled(unit, n)[i] == s[start + i % period] {
        TimesAt(unit, n / period + 1, i);
      }
      AgreeCounts(Tiled(unit, n), tail, n);
      assert Matching(s, start, period) == set i: nat | i < n && Tiled(unit, n)[i] == tail[i];
    }
  }

  // ----- repeated codewords

  lemma MulMonotone(a: nat, b: nat, d: nat)
    requires a <= b
    ensures a * d <= b * d
  {
  }

  lemma MulGap(a: nat, b: nat, d: nat)
    requires a < b
    ensures a * d + d <= b * d
  {
    MulMonotone(a + 1, b, d);
    assert (a + 1) * d == a * d + d;
  }

  lemma DivTimes(times: nat, d: nat)
    requires d > 0
    ensures times * d / d == times
  {
    var q, r := times * d / d, times * d % d;
    assert times * d == q * d + r;
    if q < times {
      MulGap(q, times, d);
    } else if times < q {
      MulGap(times, q, d);
    }
  }

  lemma {:induction false} TimesBack(unit: string, times: nat)
    ensures Times(unit, times + 1) == Times(unit, times) + unit
  {
    if times > 0 {
      TimesBack(unit, times - 1);
      assert unit + (Times(unit, times - 1) + unit) == (unit + Times(unit, times - 1)) + unit;
    }
  }

  /** Tiling as far as a whole number of repetitions gives those repetitions. */
  lemma TiledTimes(unit: string, times: nat)
    requires unit != []
    ensures Tiled(unit, times * |unit|) == Times(unit, times)
  {
    DivTimes(times, |unit|);
    TimesBack(unit, times);
    var whole := Times(unit, times);
    assert (whole + unit)[..|whole|] == whole;
  }

  lemma {:induction false} AgreeWithItself(a: string, k: nat)
    requires k <= |a|
    ensures Agree(a, a, k) == k
  {
    if k > 0 {
      AgreeWithItself(a, k - 1);
    }
  }

  /** A row that is a short preamble and then a codeword at least twice: the codeword is a
      candidate, so what the search reports is never longer. */
  lemma CodewordIsCandidate(preamble: string, unit: string, times: nat)
    requires times >= 2 && |unit| >= MIN_PERIOD
    requires |preamble| < MAX_PREAMBLE && |preamble| < (|preamble| + times * |unit|) / 2
    ensures Repeats(preamble + Times(unit, times), |preamble|, |unit|)
  {
    var row := preamble + Times(unit, times);
    var tail := row[|preamble|..];
    assert tail == Times(unit, times);
    assert times * |unit| >= 2 * |unit|;
    assert tail[..|unit|] == unit;
    TiledTimes(unit, times);
    AgreeWithItself(tail, |tail|);
    CandidateExactly(row, |preamble|, |unit|);
  }

  lemma ReportIsNoLonger(preamble: string, unit: string, times: nat, start: nat, period: nat)
    requires times >= 2 && |unit| >= MIN_PERIOD
    requires |preamble| < MAX_PREAMBLE && |preamble| < (|preamble| + times * |unit|) / 2
    requires Best(preamble + Times(unit, times), start, period)
    ensures period < |unit| || (period == |unit| && start <= |preamble|)
  {
    CodewordIsCandidate(preamble, unit, times);
  }
}
