/** Finding, splitting and stripping, as the byte and text methods of Python do it. */
module Sequences {
  import opened Options

  function Min(a: int, b: int): int {
    if a < b then a else b
  }

  function Max(a: int, b: int): int {
    if a < b then b else a
  }

  lemma Regroup<T>(a: seq<T>, b: seq<T>, c: seq<T>)
    ensures a + (b + c) == (a + b) + c
  {
  }

  /** `sub` stands at position `at` of `s`. */
  predicate Stands<T(==)>(s: seq<T>, at: nat, sub: seq<T>) {
    at + |sub| <= |s| && s[at..at + |sub|] == sub
  }

  /** Where `sub` first stands in `s`, from `p` on. */
  function Find<T(==)>(s: seq<T>, sub: seq<T>, p: nat): (at: Option<nat>)
    ensures at.Some? ==> p <= at.value && at.value + |sub| <= |s| && Stands(s, at.value, sub)
    ensures forall q :: p <= q && (at.Some? ==> q < at.value) ==> !Stands(s, q, sub)
    decreases |s| - p
  {
    if p + |sub| > |s| then None
    else if Stands(s, p, sub) then Some(p)
    else Find(s, sub, p + 1)
  }

  predicate Occurs<T(==)>(sub: seq<T>, s: seq<T>) {
    Find(s, sub, 0).Some?
  }

  /** The pieces between the separators, found from the left. */
  function Split<T(==)>(s: seq<T>, sep: seq<T>): (pieces: seq<seq<T>>)
    requires sep != []
    ensures pieces != []
    decreases |s|
  {
    match Find(s, sep, 0)
    case None => [s]
    case Some(at) => [s[..at]] + Split(s[at + |sep|..], sep)
  }

  lemma FirstAt<T>(s: seq<T>, sub: seq<T>, at: nat)
    requires Stands(s, at, sub) && forall q :: 0 <= q < at ==> !Stands(s, q, sub)
    ensures Find(s, sub, 0) == Some(at)
  {
    var found := Find(s, sub, 0);
    assert found.Some?;
    assert found.value >= at;
  }

  lemma Element<T>(s: seq<T>, at: nat, sub: seq<T>, k: nat)
    requires Stands(s, at, sub) && k < |sub|
    ensures s[at + k] == sub[k]
  {
    assert s[at..at + |sub|][k] == s[at + k];
  }

  /** The separator does not stand in `a + sep` before the end of `a`. */
  ghost predicate CleanBefore<T>(a: seq<T>, sep: seq<T>) {
    forall q :: 0 <= q < |a| ==> !Stands(a + sep, q, sep)
  }

  lemma FindBehind<T>(a: seq<T>, sep: seq<T>, rest: seq<T>)
    requires CleanBefore(a, sep)
    ensures Find(a + sep + rest, sep, 0) == Some(|a|)
  {
    var s := a + sep + rest;
    forall q | 0 <= q < |a| ensures !Stands(s, q, sep) {
      assert s[q..q + |sep|] == (a + sep)[q..q + |sep|];
      assert !Stands(a + sep, q, sep);
    }
    assert s[|a|..|a| + |sep|] == sep;
    FirstAt(s, sep, |a|);
  }

  lemma SplitBehind<T>(a: seq<T>, sep: seq<T>, rest: seq<T>)
    requires sep != [] && CleanBefore(a, sep)
    ensures Split(a + sep + rest, sep) == [a] + Split(rest, sep)
  {
    FindBehind(a, sep, rest);
    var s := a + sep + rest;
    assert s[..|a|] == a && s[|a| + |sep|..] == rest;
  }

  lemma SplitOnce<T>(s: seq<T>, sep: seq<T>)
    requires sep != [] && !Occurs(sep, s)
    ensures Split(s, sep) == [s]
  {
  }

  lemma CleanOfOne<T>(a: seq<T>, c: T)
    requires c !in a
    ensures CleanBefore(a, [c])
    ensures !Occurs([c], a)
  {
    forall q | 0 <= q < |a| ensures !Stands(a + [c], q, [c]) {
      assert (a + [c])[q..q + 1] == [a[q]];
    }
    forall q: nat ensures !Stands(a, q, [c]) {
      if q + 1 <= |a| {
        assert a[q..q + 1] == [a[q]];
      }
    }
  }

  /** The last `n` elements, or all of them. */
  function Last<T>(s: seq<T>, n: nat): (r: seq<T>)
    ensures |r| <= n
  {
    if |s| > n then s[|s| - n..] else s
  }

  // ----- stripping

  /** What the byte methods and the text methods take for space. */
  const SPACES: set<char> := {' ', '\t', '\n', '\r', '\U{0B}', '\U{0C}'}
  const TEXT_SPACES: set<char> := SPACES + {'\U{1C}', '\U{1D}', '\U{1E}', '\U{1F}'}

  function ToUpper(s: string): string {
    seq(|s|, i requires 0 <= i < |s| => if 'a' <= s[i] <= 'z' then s[i] - ' ' else s[i])
  }

  function StripLeft(s: string, cs: set<char>): (r: string) {
    if s != [] && s[0] in cs then StripLeft(s[1..], cs) else s
  }

  function StripRight(s: string, cs: set<char>): (r: string)
    ensures r <= s
  {
    if s != [] && s[|s| - 1] in cs then StripRight(s[..|s| - 1], cs) else s
  }

  function Strip(s: string, cs: set<char>): string {
    StripRight(StripLeft(s, cs), cs)
  }

  predicate Blank(s: string, cs: set<char>) {
    forall c :: c in s ==> c in cs
  }

  lemma {:induction false} StripRightBlank(a: string, b: string, cs: set<char>)
    requires Blank(b, cs)
    ensures StripRight(a + b, cs) == StripRight(a, cs)
  {
    if b == [] {
      assert a + b == a;
    } else {
      var b' := b[..|b| - 1];
      assert (a + b)[..|a + b| - 1] == a + b';
      StripRightBlank(a, b', cs);
    }
  }

  lemma {:induction false} StripRightKeeps(a: string, b: string, cs: set<char>)
    requires !Blank(b, cs)
    ensures StripRight(a + b, cs) == a + StripRight(b, cs)
    ensures StripRight(b, cs) != []
  {
    if b[|b| - 1] in cs {
      var b' := b[..|b| - 1];
      assert b == b' + [b[|b| - 1]];
      assert (a + b)[..|a + b| - 1] == a + b';
      StripRightKeeps(a, b', cs);
    }
  }

  lemma {:induction false} StripLeftBlank(a: string, b: string, cs: set<char>)
    requires Blank(a, cs)
    ensures StripLeft(a + b, cs) == StripLeft(b, cs)
  {
    if a == [] {
      assert a + b == b;
    } else {
      assert (a + b)[1..] == a[1..] + b;
      StripLeftBlank(a[1..], b, cs);
    }
  }

  lemma {:induction false} StripOfBlank(s: string, cs: set<char>)
    requires Blank(s, cs)
    ensures StripLeft(s, cs) == [] && StripRight(s, cs) == []
  {
    StripLeftBlank(s, [], cs);
    StripRightBlank([], s, cs);
    assert s + [] == s && [] + s == s;
  }

  lemma StripRightEnd(s: string, cs: set<char>)
    ensures var r := StripRight(s, cs); r == [] || r[|r| - 1] !in cs
    ensures StripRight(s, cs) == s <==> s == [] || s[|s| - 1] !in cs
  {
  }

  /** The characters of `s` up to the first space. */
  function FirstWord(s: string): (w: string)
    ensures w <= s && forall c :: c in w ==> c !in TEXT_SPACES
    ensures s != "" && s[0] !in TEXT_SPACES ==> w != ""
  {
    if s == "" || s[0] in TEXT_SPACES then "" else [s[0]] + FirstWord(s[1..])
  }

  /** The words of a text: Python's `split` without a separator. */
  function Words(s: string): seq<string>
    decreases |s|
  {
    if s == "" then []
    else if s[0] in TEXT_SPACES then Words(s[1..])
    else [FirstWord(s)] + Words(s[|FirstWord(s)|..])
  }

  /** A small letter becomes its capital, and every other character stays. */
  lemma ToUpperIs(s: string, i: nat)
    requires i < |s|
    ensures |ToUpper(s)| == |s|
    ensures 'a' <= s[i] <= 'z' ==> ToUpper(s)[i] as int - 'A' as int == s[i] as int - 'a' as int
    ensures s[i] < 'a' || s[i] > 'z' ==> ToUpper(s)[i] == s[i]
  {
  }

  /** A word with white space before it. */
  datatype Spaced = Spaced(before: string, word: string) {
    predicate Valid() {
      Blank(before, TEXT_SPACES) && word != "" && forall c :: c in word ==> c !in TEXT_SPACES
    }
  }

  function Spread(words: seq<Spaced>, after: string): string {
    if words == [] then after else words[0].before + words[0].word + Spread(words[1..], after)
  }

  function Bare(words: seq<Spaced>): seq<string> {
    if words == [] then [] else [words[0].word] + Bare(words[1..])
  }

  /** Words with any white space between them, before the first and behind the last, come out as they are. */
  lemma {:induction false} WordsUndoSpread(words: seq<Spaced>, after: string)
    requires (forall i :: 0 <= i < |words| ==> words[i].Valid()) && Blank(after, TEXT_SPACES)
    requires forall i :: 0 < i < |words| ==> words[i].before != ""
    ensures Words(Spread(words, after)) == Bare(words)
  {
    if words == [] {
      SkipBlank(after, "");
      assert after + "" == after;
    } else {
      var first, rest := words[0], Spread(words[1..], after);
      SkipBlank(first.before, first.word + rest);
      assert first.before + first.word + rest == first.before + (first.word + rest);
      if |words| > 1 {
        assert words[1..][0] == words[1] && words[1].before[0] in words[1].before;
        assert rest[0] == words[1].before[0];
      } else {
        assert after != "" ==> after[0] in after;
      }
      TakeWord(first.word, rest);
      var s := first.word + rest;
      assert s[0] in first.word && s[|first.word|..] == rest;
      WordsUndoSpread(words[1..], after);
    }
  }

  lemma {:induction false} SkipBlank(blank: string, s: string)
    requires Blank(blank, TEXT_SPACES)
    ensures Words(blank + s) == Words(s)
  {
    if blank == "" {
      assert blank + s == s;
    } else {
      assert blank[0] in blank && (blank + s)[0] == blank[0] && (blank + s)[1..] == blank[1..] + s;
      SkipBlank(blank[1..], s);
    }
  }

  lemma {:induction false} TakeWord(word: string, rest: string)
    requires (forall c :: c in word ==> c !in TEXT_SPACES) && (rest == "" || rest[0] in TEXT_SPACES)
    ensures FirstWord(word + rest) == word
  {
    if word == "" {
      assert word + rest == rest;
    } else {
      assert word[0] in word && (word + rest)[0] == word[0] && (word + rest)[1..] == word[1..] + rest;
      TakeWord(word[1..], rest);
    }
  }
}
