/**
 The Morse keyer (pi/morse.py): the on/off timeline of a message, in dits, with the spacing of
 ITU-R M.1677-1, Annex 1, Part I, section 2, and a stop that can come at any check.

 Text is ASCII.  A wait is the wait that was asked for; once the stop has come it may be shorter.
 */
module Morse {
  import opened Options
  import opened Sequences

  /** MORSE_TABLE; a character that is not in it has no code. */
  function Code(c: char): string {
    if 'A' <= c <= 'L' then CodeAToL(c)
    else if 'M' <= c <= 'Z' then CodeMToZ(c)
    else if '0' <= c <= '9' then CodeOfDigit(c)
    else CodeOfSign(c)
  }

  function CodeAToL(c: char): string
    requires 'A' <= c <= 'L'
  {
    match c
    case 'A' => ".-" case 'B' => "-..." case 'C' => "-.-." case 'D' => "-.."
    case 'E' => "." case 'F' => "..-." case 'G' => "--." case 'H' => "...."
    case 'I' => ".." case 'J' => ".---" case 'K' => "-.-" case _ => ".-.."
  }

  function CodeMToZ(c: char): string
    requires 'M' <= c <= 'Z'
  {
    match c
    case 'M' => "--" case 'N' => "-." case 'O' => "---" case 'P' => ".--."
    case 'Q' => "--.-" case 'R' => ".-." case 'S' => "..." case 'T' => "-"
    case 'U' => "..-" case 'V' => "...-" case 'W' => ".--" case 'X' => "-..-"
    case 'Y' => "-.--" case _ => "--.."
  }

  function CodeOfDigit(c: char): string
    requires '0' <= c <= '9'
  {
    match c
    case '0' => "-----" case '1' => ".----" case '2' => "..---" case '3' => "...--"
    case '4' => "....-" case '5' => "....." case '6' => "-...." case '7' => "--..."
    case '8' => "---.." case _ => "----."
  }

  function CodeOfSign(c: char): string {
    match c
    case '/' => "-..-." case '=' => "-...-" case '?' => "..--.." case '.' => ".-.-.-"
    case ',' => "--..--"
    case _ => ""
  }

  predicate Known(c: char) {
    Code(c) != ""
  }

  // ----- the script of a pass, and how it runs until the stop

  datatype Step = Check | On | Off | Wait(dits: nat)

  function Dits(symbol: char): nat {
    if symbol == '.' then 1 else 3
  }

  /** The elements of a code from the `i`-th on. */
  function CodeScript(code: string, i: nat): seq<Step>
    requires i <= |code|
    decreases |code| - i
  {
    if i == |code| then []
    else [Check, On, Wait(Dits(code[i])), Off] + (if i + 1 < |code| then [Wait(1)] else []) + CodeScript(code, i + 1)
  }

  /** A character in the middle of a word or at its end; an unknown one takes no time. */
  function CharScript(c: char, last: bool): seq<Step> {
    if !Known(c) then [Check] else [Check] + CodeScript(Code(c), 0) + if last then [] else [Wait(3)]
  }

  function WordScript(word: string, i: nat): seq<Step>
    requires i <= |word|
    decreases |word| - i
  {
    if i == |word| then [] else CharScript(word[i], i + 1 == |word|) + WordScript(word, i + 1)
  }

  function Script(words: seq<string>, i: nat): seq<Step>
    requires i <= |words|
    decreases |words| - i
  {
    if i == |words| then []
    else [Check] + WordScript(words[i], 0) + (if i + 1 < |words| then [Wait(7)] else []) + Script(words, i + 1)
  }

  /** A keyer: what it has done, how often it looked at the stop event, and whether it saw it set. */
  datatype State = State(trace: seq<Step>, checks: nat, stopped: bool)

  /** One step; the stop event is set from the look number `stopAt` on. */
  function Do(st: State, step: Step, stopAt: nat): State {
    if st.stopped then st
    else if step.Check? then st.(checks := st.checks + 1, stopped := st.checks >= stopAt)
    else st.(trace := st.trace + [step])
  }

  function Run(st: State, script: seq<Step>, stopAt: nat): State
    decreases |script|
  {
    if script == [] then st else Run(Do(st, script[0], stopAt), script[1..], stopAt)
  }

  lemma {:induction false} RunConcat(st: State, a: seq<Step>, b: seq<Step>, stopAt: nat)
    ensures Run(st, a + b, stopAt) == Run(Run(st, a, stopAt), b, stopAt)
    decreases |a|
  {
    if a == [] {
      assert a + b == b;
    } else {
      var all := a + b;
      assert all[0] == a[0] && all[1..] == a[1..] + b;
      RunConcat(Do(st, a[0], stopAt), a[1..], b, stopAt);
    }
  }

  lemma {:induction false} RunStopped(st: State, script: seq<Step>, stopAt: nat)
    requires st.stopped
    ensures Run(st, script, stopAt) == st
    decreases |script|
  {
    if script != [] {
      RunStopped(st, script[1..], stopAt);
    }
  }

  /** What a look at the stop event, and what a stretch without looks, does. */
  lemma RunCheck(st: State, rest: seq<Step>, stopAt: nat)
    requires !st.stopped
    ensures Run(st, [Check] + rest, stopAt) ==
            if st.checks >= stopAt then State(st.trace, st.checks + 1, true)
            else Run(State(st.trace, st.checks + 1, false), rest, stopAt)
  {
    assert ([Check] + rest)[1..] == rest;
    if st.checks >= stopAt {
      RunStopped(State(st.trace, st.checks + 1, true), rest, stopAt);
    }
  }

  lemma {:induction false} RunPlain(st: State, steps: seq<Step>, rest: seq<Step>, stopAt: nat)
    requires !st.stopped && Check !in steps
    ensures Run(st, steps + rest, stopAt) == Run(st.(trace := st.trace + steps), rest, stopAt)
    decreases |steps|
  {
    if steps == [] {
      assert steps + rest == rest && st.trace + steps == st.trace;
    } else {
      var all := steps + rest;
      assert all[0] == steps[0] && all[1..] == steps[1..] + rest;
      assert st.trace + steps == (st.trace + [steps[0]]) + steps[1..];
      RunPlain(Do(st, steps[0], stopAt), steps[1..], rest, stopAt);
    }
  }

  function ElementSteps(code: string, i: nat): seq<Step>
    requires i < |code|
  {
    [On, Wait(Dits(code[i])), Off] + if i + 1 < |code| then [Wait(1)] else []
  }

  lemma CodeNext(st: State, code: string, i: nat, stopAt: nat)
    requires i < |code| && !st.stopped
    ensures Run(st, CodeScript(code, i), stopAt) ==
            if st.checks >= stopAt then State(st.trace, st.checks + 1, true)
            else Run(State(st.trace + ElementSteps(code, i), st.checks + 1, false), CodeScript(code, i + 1), stopAt)
  {
    var steps, rest := ElementSteps(code, i), CodeScript(code, i + 1);
    assert CodeScript(code, i) == [Check] + (steps + rest);
    RunCheck(st, steps + rest, stopAt);
    if st.checks < stopAt {
      RunPlain(State(st.trace, st.checks + 1, false), steps, rest, stopAt);
    }
  }

  class MorseKeyer {
    var trace: seq<Step>
    var checks: nat
    const stopAt: nat

    constructor (stopAt: nat)
      ensures this.stopAt == stopAt && trace == [] && checks == 0
    {
      this.stopAt := stopAt;
      trace, checks := [], 0;
    }

    function Now(stopped: bool): State
      reads this
    {
      State(trace, checks, stopped)
    }

    method IsSet() returns (stopped: bool)
      modifies this`checks
      ensures checks == old(checks) + 1 && stopped == (old(checks) >= stopAt)
    {
      stopped := checks >= stopAt;
      checks := checks + 1;
    }

    method Add(step: Step)
      requires !step.Check?
      modifies this`trace
      ensures trace == old(trace) + [step]
    {
      trace := trace + [step];
    }

    /** The innermost loop of a pass: one code. */
    method PlayCode(code: string) returns (stopped: bool)
      modifies this
      ensures Now(stopped) == Run(old(Now(false)), CodeScript(code, 0), stopAt)
    {
      hide Run, CodeScript;
      for i := 0 to |code|
        invariant Run(Now(false), CodeScript(code, i), stopAt) == Run(old(Now(false)), CodeScript(code, 0), stopAt)
      {
        CodeNext(Now(false), code, i, stopAt);
        var isSet := IsSet();
        if isSet {
          return true;
        }
        ghost var before := trace;
        var duration := if code[i] == '.' then 1 else 3;
        Add(On);
        Add(Wait(duration));
        Add(Off);
        if i < |code| - 1 {
          Add(Wait(1));
        }
        assert trace == before + ElementSteps(code, i);
      }
      CodeEnds(Now(false), code, stopAt);
      stopped := false;
    }

    /** The middle loop: one word. */
    method PlayWord(word: string) returns (stopped: bool)
      modifies this
      ensures Now(stopped) == Run(old(Now(false)), WordScript(word, 0), stopAt)
    {
      hide Run, WordScript, CharScript, CodeScript, Code;
      for i := 0 to |word|
        invariant Run(Now(false), WordScript(word, i), stopAt) == Run(old(Now(false)), WordScript(word, 0), stopAt)
      {
        WordNext(Now(false), word, i, stopAt);
        var isSet := IsSet();
        if isSet {
          return true;
        }
        var code := Code(word[i]);
        if code == "" {
          continue;
        }
        var cut := PlayCode(code);
        if cut {
          return true;
        }
        if i < |word| - 1 {
          Add(Wait(3));
        }
      }
      WordEnds(Now(false), word, stopAt);
      stopped := false;
    }

    /** One pass; true if it was stopped on the way. */
    method PlayOnce(words: seq<string>) returns (stopped: bool)
      modifies this
      ensures Now(stopped) == Run(old(Now(false)), Script(words, 0), stopAt)
    {
      hide Run, WordScript, Script;
      for i := 0 to |words|
        invariant Run(Now(false), Script(words, i), stopAt) == Run(old(Now(false)), Script(words, 0), stopAt)
      {
        WordsNext(Now(false), words, i, stopAt);
        var isSet := IsSet();
        if isSet {
          return true;
        }
        var cut := PlayWord(words[i]);
        if cut {
          return true;
        }
        if i < |words| - 1 {
          Add(Wait(7));
        }
      }
      WordsEnd(Now(false), words, stopAt);
      stopped := false;
    }

    /** Passes, repeated or not, until the stop; the key is let go in the end. */
    method Play(words: seq<string>, repeat: bool)
      modifies this
      ensures trace == Session(old(Now(false)), words, repeat, stopAt).trace + [Off]
    {
      hide Run, Script;
      while true
        invariant Session(Now(false), words, repeat, stopAt) == Session(old(Now(false)), words, repeat, stopAt)
        decreases stopAt - checks
      {
        var isSet := IsSet();
        if isSet {
          break;
        }
        ghost var before := Now(false);
        ChecksGrow(before, Script(words, 0), stopAt);
        var cut := PlayOnce(words);
        if cut {
          break;
        }
        if !repeat {
          break;
        }
        Add(Wait(7));
      }
      Add(Off);
    }
  }

  lemma CodeEnds(st: State, code: string, stopAt: nat)
    ensures Run(st, CodeScript(code, |code|), stopAt) == st
  {
  }

  lemma WordEnds(st: State, word: string, stopAt: nat)
    ensures Run(st, WordScript(word, |word|), stopAt) == st
  {
  }

  lemma WordsEnd(st: State, words: seq<string>, stopAt: nat)
    ensures Run(st, Script(words, |words|), stopAt) == st
  {
  }

  /** A wait if more is to come. */
  function Rest(st: State, more: bool, dits: nat): State {
    if more then st.(trace := st.trace + [Wait(dits)]) else st
  }

  lemma WordNext(st: State, word: string, i: nat, stopAt: nat)
    requires i < |word| && !st.stopped
    ensures var checked := State(st.trace, st.checks + 1, false);
            var keyed := Run(checked, CodeScript(Code(word[i]), 0), stopAt);
            Run(st, WordScript(word, i), stopAt) ==
            if st.checks >= stopAt then State(st.trace, st.checks + 1, true)
            else if Code(word[i]) == "" then Run(checked, WordScript(word, i + 1), stopAt)
            else if keyed.stopped then keyed
            else Run(Rest(keyed, i + 1 < |word|, 3), WordScript(word, i + 1), stopAt)
  {
    hide Code, Run, CodeScript;
    var code, rest := Code(word[i]), WordScript(word, i + 1);
    var gap := if i + 1 < |word| then [Wait(3)] else [];
    var checked := State(st.trace, st.checks + 1, false);
    if code == "" {
      RunCheck(st, rest, stopAt);
    } else {
      var tail := CodeScript(code, 0) + (gap + rest);
      KnownWord(word, i);
      RunCheck(st, tail, stopAt);
      RunConcat(checked, CodeScript(code, 0), gap + rest, stopAt);
      var keyed := Run(checked, CodeScript(code, 0), stopAt);
      if keyed.stopped {
        RunStopped(keyed, gap + rest, stopAt);
      } else {
        RunPlain(keyed, gap, rest, stopAt);
        assert keyed.trace + [] == keyed.trace;
      }
    }
  }

  lemma KnownWord(word: string, i: nat)
    requires i < |word| && Known(word[i])
    ensures WordScript(word, i) ==
            var gap := if i + 1 < |word| then [Wait(3)] else [];
            [Check] + (CodeScript(Code(word[i]), 0) + (gap + WordScript(word, i + 1)))
  {
    hide Code, CodeScript;
  }

  lemma WordsNext(st: State, words: seq<string>, i: nat, stopAt: nat)
    requires i < |words| && !st.stopped
    ensures var played := Run(State(st.trace, st.checks + 1, false), WordScript(words[i], 0), stopAt);
            Run(st, Script(words, i), stopAt) ==
            if st.checks >= stopAt then State(st.trace, st.checks + 1, true)
            else if played.stopped then played
            else Run(Rest(played, i + 1 < |words|, 7), Script(words, i + 1), stopAt)
  {
    hide Run, WordScript;
    var checked := State(st.trace, st.checks + 1, false);
    var gap := if i + 1 < |words| then [Wait(7)] else [];
    var word, rest := WordScript(words[i], 0), Script(words, i + 1);
    var tail := word + (gap + rest);
    assert Script(words, i) == [Check] + tail;
    RunCheck(st, tail, stopAt);
    RunConcat(checked, word, gap + rest, stopAt);
    var played := Run(checked, word, stopAt);
    if played.stopped {
      RunStopped(played, gap + rest, stopAt);
    } else {
      RunPlain(played, gap, rest, stopAt);
      assert played.trace + [] == played.trace;
    }
  }

  lemma {:induction false} ChecksGrow(st: State, script: seq<Step>, stopAt: nat)
    ensures Run(st, script, stopAt).checks >= st.checks
    ensures !st.stopped && Run(st, script, stopAt).stopped ==> Run(st, script, stopAt).checks > stopAt
    decreases |script|
  {
    if script != [] {
      ChecksGrow(Do(st, script[0], stopAt), script[1..], stopAt);
    }
  }

  /** A whole run of the keyer. */
  function Session(st: State, words: seq<string>, repeat: bool, stopAt: nat): State
    decreases stopAt - st.checks
  {
    var checked := st.(checks := st.checks + 1);
    if st.checks >= stopAt then checked.(stopped := true)
    else
      ChecksGrow(checked, Script(words, 0), stopAt);
      var played := Run(checked, Script(words, 0), stopAt);
      if played.stopped || !repeat then played
      else Session(played.(trace := played.trace + [Wait(7)]), words, repeat, stopAt)
  }

  // ----- the key is never left down

  /** The key at the end of some steps, if no key-on comes while it is down and no look at the stop event either. */
  function Key(steps: seq<Step>, down: bool): Option<bool> {
    if steps == [] then Some(down)
    else
      match steps[0]
      case On => if down then None else Key(steps[1..], true)
      case Off => Key(steps[1..], false)
      case Wait(_) => Key(steps[1..], down)
      case Check => if down then None else Key(steps[1..], down)
  }

  predicate KeyedOff(steps: seq<Step>) {
    Key(steps, false) == Some(false)
  }

  lemma {:induction false} KeyConcat(a: seq<Step>, b: seq<Step>, down: bool)
    ensures Key(a + b, down) == match Key(a, down) case None => None case Some(d) => Key(b, d)
  {
    if a == [] {
      assert a + b == b;
    } else {
      var all := a + b;
      assert all[0] == a[0] && all[1..] == a[1..] + b;
      if !(a[0].On? && down) {
        KeyConcat(a[1..], b, if a[0].On? then true else if a[0].Off? then false else down);
      }
    }
  }

  lemma KeyedOffConcat(a: seq<Step>, b: seq<Step>)
    requires KeyedOff(a) && KeyedOff(b)
    ensures KeyedOff(a + b)
  {
    KeyConcat(a, b, false);
  }

  lemma KeyedOffPieces()
    ensures KeyedOff([]) && KeyedOff([Check]) && forall d :: KeyedOff([Wait(d)])
    ensures forall d :: KeyedOff([Check, On, Wait(d), Off])
    ensures KeyedOff([Off])
  {
    forall d ensures KeyedOff([Wait(d)]) && KeyedOff([Check, On, Wait(d), Off]) {
      assert [Check, On, Wait(d), Off][1..] == [On, Wait(d), Off];
      assert [On, Wait(d), Off][1..] == [Wait(d), Off] && [Wait(d), Off][1..] == [Off];
      assert Key([Off], true) == Some(false);
      assert Key([Wait(d), Off], true) == Some(false);
      assert Key([On, Wait(d), Off], false) == Some(false);
    }
  }

  lemma {:induction false} CodeKeyedOff(code: string, i: nat)
    requires i <= |code|
    ensures KeyedOff(CodeScript(code, i))
    decreases |code| - i
  {
    hide KeyedOff;
    KeyedOffPieces();
    if i < |code| {
      CodeKeyedOff(code, i + 1);
      var gap := if i + 1 < |code| then [Wait(1)] else [];
      KeyedOffConcat([Check, On, Wait(Dits(code[i])), Off], gap);
      KeyedOffConcat([Check, On, Wait(Dits(code[i])), Off] + gap, CodeScript(code, i + 1));
    }
  }

  lemma {:induction false} WordKeyedOff(word: string, i: nat)
    requires i <= |word|
    ensures KeyedOff(WordScript(word, i))
    decreases |word| - i
  {
    hide KeyedOff, CodeScript, Code;
    KeyedOffPieces();
    if i < |word| {
      WordKeyedOff(word, i + 1);
      var code, gap := CodeScript(Code(word[i]), 0), if i + 1 < |word| then [Wait(3)] else [];
      CodeKeyedOff(Code(word[i]), 0);
      KeyedOffConcat([Check], code);
      KeyedOffConcat([Check] + code, gap);
      KeyedOffConcat(CharScript(word[i], i + 1 == |word|), WordScript(word, i + 1));
    }
  }

  lemma {:induction false} ScriptKeyedOff(words: seq<string>, i: nat)
    requires i <= |words|
    ensures KeyedOff(Script(words, i))
    decreases |words| - i
  {
    hide KeyedOff, WordScript;
    KeyedOffPieces();
    if i < |words| {
      ScriptKeyedOff(words, i + 1);
      WordKeyedOff(words[i], 0);
      var gap := if i + 1 < |words| then [Wait(7)] else [];
      KeyedOffConcat([Check], WordScript(words[i], 0));
      KeyedOffConcat([Check] + WordScript(words[i], 0), gap);
      KeyedOffConcat([Check] + WordScript(words[i], 0) + gap, Script(words, i + 1));
    }
  }

  /** A script that looks at the stop event only while the key is up leaves it up, wherever it is stopped. */
  lemma {:induction false} RunKeepsKeyedOff(st: State, script: seq<Step>, down: bool, stopAt: nat)
    requires Key(st.trace, false) == Some(down) && Key(script, down) == Some(false) && (st.stopped ==> !down)
    ensures KeyedOff(Run(st, script, stopAt).trace)
    decreases |script|
  {
    if st.stopped {
      RunStopped(st, script, stopAt);
    } else if script != [] {
      var step := script[0];
      KeyConcat(st.trace, [step], false);
      var down' := if step.On? then true else if step.Off? then false else down;
      RunKeepsKeyedOff(Do(st, step, stopAt), script[1..], down', stopAt);
    }
  }

  /** Whenever the stop comes: every key-on is followed by a key-off before the next one, and the run ends with
      the key up. */
  lemma {:induction false} NeverLeftOn(st: State, words: seq<string>, repeat: bool, stopAt: nat)
    requires KeyedOff(st.trace)
    ensures KeyedOff(Session(st, words, repeat, stopAt).trace)
    decreases stopAt - st.checks
  {
    hide KeyedOff, Script, Run;
    if st.checks < stopAt {
      var checked := st.(checks := st.checks + 1);
      ChecksGrow(checked, Script(words, 0), stopAt);
      PassKeepsKeyedOff(checked, words, stopAt);
      var played := Run(checked, Script(words, 0), stopAt);
      if !(played.stopped || !repeat) {
        KeyedOffPieces();
        KeyedOffConcat(played.trace, [Wait(7)]);
        NeverLeftOn(played.(trace := played.trace + [Wait(7)]), words, repeat, stopAt);
      }
    }
  }

  lemma PassKeepsKeyedOff(st: State, words: seq<string>, stopAt: nat)
    requires KeyedOff(st.trace)
    ensures KeyedOff(Run(st, Script(words, 0), stopAt).trace)
  {
    ScriptKeyedOff(words, 0);
    RunKeepsKeyedOff(st, Script(words, 0), false, stopAt);
  }

  // ----- the stop is heeded

  /** How often the key goes down. */
  function Presses(steps: seq<Step>): nat {
    if steps == [] then 0 else (if steps[0].On? then 1 else 0) + Presses(steps[1..])
  }

  lemma {:induction false} PressesConcat(a: seq<Step>, b: seq<Step>)
    ensures Presses(a + b) == Presses(a) + Presses(b)
  {
    if a == [] {
      assert a + b == b;
    } else {
      var all := a + b;
      assert all[0] == a[0] && all[1..] == a[1..] + b;
      PressesConcat(a[1..], b);
    }
  }

  /** Every key-on has a look at the stop event of its own before it; `looked` if there was one already. */
  predicate Guarded(script: seq<Step>, looked: bool) {
    script == []
    || match script[0]
       case Check => Guarded(script[1..], true)
       case On => looked && Guarded(script[1..], false)
       case _ => Guarded(script[1..], looked)
  }

  lemma {:induction false} GuardedConcat(a: seq<Step>, b: seq<Step>, looked: bool)
    requires Guarded(a, looked) && Guarded(b, false)
    ensures Guarded(a + b, looked)
  {
    if a == [] {
      assert a + b == b;
      GuardedAnyway(b, looked);
    } else {
      var all := a + b;
      assert all[0] == a[0] && all[1..] == a[1..] + b;
      GuardedConcat(a[1..], b, if a[0].Check? then true else if a[0].On? then false else looked);
    }
  }

  lemma {:induction false} GuardedAnyway(script: seq<Step>, looked: bool)
    requires Guarded(script, false)
    ensures Guarded(script, looked)
  {
    if script != [] && !script[0].Check? && !script[0].On? {
      GuardedAnyway(script[1..], looked);
    }
  }

  lemma GuardedPieces(dits: nat)
    ensures Guarded([], false) && Guarded([Check], false) && Guarded([Wait(dits)], false)
    ensures Guarded([Check, On, Wait(dits), Off], false)
  {
    var steps := [Check, On, Wait(dits), Off];
    assert steps[1..] == [On, Wait(dits), Off] && steps[1..][1..] == [Wait(dits), Off];
    assert steps[1..][1..][1..] == [Off] && [Off][1..] == [] && [Check][1..] == [] && [Wait(dits)][1..] == [];
    assert Guarded([Off], false) && Guarded([Wait(dits), Off], false) && Guarded([On, Wait(dits), Off], true);
  }

  lemma {:induction false} CodeGuarded(code: string, i: nat)
    requires i <= |code|
    ensures Guarded(CodeScript(code, i), false)
    decreases |code| - i
  {
    GuardedPieces(1);
    if i < |code| {
      CodeGuarded(code, i + 1);
      hide Guarded;
      GuardedPieces(Dits(code[i]));
      var element := [Check, On, Wait(Dits(code[i])), Off];
      var gap := if i + 1 < |code| then [Wait(1)] else [];
      GuardedConcat(element, gap, false);
      GuardedConcat(element + gap, CodeScript(code, i + 1), false);
    }
  }

  lemma {:induction false} WordGuarded(word: string, i: nat)
    requires i <= |word|
    ensures Guarded(WordScript(word, i), false)
    decreases |word| - i
  {
    hide Guarded, CodeScript, Code;
    GuardedPieces(3);
    if i < |word| {
      WordGuarded(word, i + 1);
      CodeGuarded(Code(word[i]), 0);
      GuardedConcat([Check], CodeScript(Code(word[i]), 0), false);
      GuardedConcat([Check] + CodeScript(Code(word[i]), 0), if i + 1 == |word| then [] else [Wait(3)], false);
      GuardedConcat(CharScript(word[i], i + 1 == |word|), WordScript(word, i + 1), false);
    }
  }

  lemma {:induction false} ScriptGuarded(words: seq<string>, i: nat)
    requires i <= |words|
    ensures Guarded(Script(words, i), false)
    decreases |words| - i
  {
    hide Guarded, WordScript;
    GuardedPieces(7);
    if i < |words| {
      ScriptGuarded(words, i + 1);
      WordGuarded(words[i], 0);
      var gap := if i + 1 < |words| then [Wait(7)] else [];
      GuardedConcat([Check], WordScript(words[i], 0), false);
      GuardedConcat([Check] + WordScript(words[i], 0), gap, false);
      GuardedConcat([Check] + WordScript(words[i], 0) + gap, Script(words, i + 1), false);
    }
  }

  /** The key goes down at most once for each look that was answered no. */
  lemma {:induction false} RunHeedsStop(st: State, script: seq<Step>, looked: bool, stopAt: nat)
    requires Guarded(script, looked) && !st.stopped && st.checks <= stopAt
    ensures var r := Run(st, script, stopAt);
            && st.checks <= r.checks <= stopAt + 1 && (!r.stopped ==> r.checks <= stopAt)
            && Presses(r.trace) <= Presses(st.trace) + Min(r.checks, stopAt) - st.checks + if looked then 1 else 0
    decreases |script|
  {
    if script != [] {
      var next := Do(st, script[0], stopAt);
      PressesConcat(st.trace, [script[0]]);
      if next.stopped {
        RunStopped(next, script[1..], stopAt);
      } else {
        RunHeedsStop(next, script[1..],
                     if script[0].Check? then true else if script[0].On? then false else looked, stopAt);
      }
    }
  }

  /** Over a whole session: once the stop event is set the key does not go down again. */
  lemma {:induction false} StopIsHeeded(st: State, words: seq<string>, repeat: bool, stopAt: nat)
    requires !st.stopped && st.checks <= stopAt
    ensures var r := Session(st, words, repeat, stopAt);
            Presses(r.trace) <= Presses(st.trace) + (stopAt - st.checks)
    decreases stopAt - st.checks
  {
    hide Run, Script, Guarded;
    if st.checks < stopAt {
      var checked := st.(checks := st.checks + 1);
      ChecksGrow(checked, Script(words, 0), stopAt);
      ScriptGuarded(words, 0);
      RunHeedsStop(checked, Script(words, 0), false, stopAt);
      var played := Run(checked, Script(words, 0), stopAt);
      if !(played.stopped || !repeat) {
        PressesConcat(played.trace, [Wait(7)]);
        StopIsHeeded(played.(trace := played.trace + [Wait(7)]), words, repeat, stopAt);
      }
    }
  }

  // ----- a pass that was not stopped is the whole timeline

  /** What the pin does: a script without its looks at the stop event. */
  function Timeline(script: seq<Step>): seq<Step> {
    if script == [] then [] else (if script[0].Check? then [] else [script[0]]) + Timeline(script[1..])
  }

  /** Stopped or not, a run emits a beginning of the timeline, and all of it if it was not stopped. */
  lemma {:induction false} RunEmitsTimeline(st: State, script: seq<Step>, stopAt: nat)
    requires !st.stopped
    ensures var r := Run(st, script, stopAt);
            r.trace <= st.trace + Timeline(script) && (!r.stopped ==> r.trace == st.trace + Timeline(script))
    decreases |script|
  {
    if script == [] {
      assert st.trace + [] == st.trace;
    } else {
      var next := Do(st, script[0], stopAt);
      if next.stopped {
        RunStopped(next, script[1..], stopAt);
      } else {
        RunEmitsTimeline(next, script[1..], stopAt);
        if !script[0].Check? {
          assert st.trace + Timeline(script) == (st.trace + [script[0]]) + Timeline(script[1..]);
        }
      }
    }
  }

  /** A number of passes, each with the pause behind it. */
  function Passes(pass: seq<Step>, n: nat): seq<Step> {
    if n == 0 then [] else pass + [Wait(7)] + Passes(pass, n - 1)
  }

  /** A session is whole passes, as many as came through if it repeats, and a beginning of one more; without a stop, and
      without repetition, it is one whole pass. */
  lemma {:induction false} SessionIsPasses(st: State, words: seq<string>, repeat: bool, stopAt: nat)
    returns (n: nat, rest: seq<Step>)
    requires !st.stopped
    ensures var pass, r := Timeline(Script(words, 0)), Session(st, words, repeat, stopAt);
            && r.trace == st.trace + Passes(pass, n) + rest && rest <= pass
            && (!repeat ==> n == 0)
            && (!r.stopped ==> !repeat && rest == pass)
            && (r.stopped ==> r.checks > stopAt)
    decreases stopAt - st.checks
  {
    hide Run, Script, Timeline;
    n, rest := 0, [];
    var pass := Timeline(Script(words, 0));
    var checked := st.(checks := st.checks + 1);
    assert st.trace + [] + [] == st.trace;
    if st.checks < stopAt {
      ChecksGrow(checked, Script(words, 0), stopAt);
      RunEmitsTimeline(checked, Script(words, 0), stopAt);
      var played := Run(checked, Script(words, 0), stopAt);
      if played.stopped || !repeat {
        KeepsTrace(checked, Script(words, 0), stopAt);
        rest := played.trace[|st.trace|..];
        assert played.trace == st.trace + Passes(pass, 0) + rest;
      } else {
        var again := played.(trace := played.trace + [Wait(7)]);
        n, rest := SessionIsPasses(again, words, repeat, stopAt);
        assert again.trace + Passes(pass, n) + rest == st.trace + Passes(pass, n + 1) + rest;
        n := n + 1;
      }
    }
  }

  lemma {:induction false} KeepsTrace(st: State, script: seq<Step>, stopAt: nat)
    ensures st.trace <= Run(st, script, stopAt).trace
    decreases |script|
  {
    if script != [] {
      KeepsTrace(Do(st, script[0], stopAt), script[1..], stopAt);
    }
  }

  // ----- how long it takes

  /** The dits that some steps take. */
  function Duration(steps: seq<Step>): nat {
    if steps == [] then 0 else (if steps[0].Wait? then steps[0].dits else 0) + Duration(steps[1..])
  }

  lemma {:induction false} DurationConcat(a: seq<Step>, b: seq<Step>)
    ensures Duration(a + b) == Duration(a) + Duration(b)
  {
    if a == [] {
      assert a + b == b;
    } else {
      var all := a + b;
      assert all[0] == a[0] && all[1..] == a[1..] + b;
      DurationConcat(a[1..], b);
    }
  }

  /** One dit for a dot and three for a dash, with one more between two of them. */
  function CodeTime(code: string): nat {
    if code == "" then 0
    else if |code| == 1 then ElementTime(code[0])
    else ElementTime(code[0]) + 1 + CodeTime(code[1..])
  }

  function ElementTime(symbol: char): nat {
    if symbol == '-' then 3 else 1
  }

  lemma {:induction false} CodeTakes(code: string, i: nat)
    requires i <= |code| && forall e :: e in code ==> e == '.' || e == '-'
    ensures Duration(CodeScript(code, i)) == CodeTime(code[i..])
    decreases |code| - i
  {
    if i < |code| {
      CodeTakes(code, i + 1);
      assert code[i] in code && code[i..][1..] == code[i + 1..];
      var element := [Check, On, Wait(Dits(code[i])), Off];
      var gap := if i + 1 < |code| then [Wait(1)] else [];
      DurationConcat(element + gap, CodeScript(code, i + 1));
      assert CodeScript(code, i) == element + gap + CodeScript(code, i + 1);
      ElementTakes(Dits(code[i]), i + 1 < |code|);
    }
  }

  lemma ElementTakes(dits: nat, more: bool)
    ensures Duration([Check, On, Wait(dits), Off] + if more then [Wait(1)] else []) == dits + if more then 1 else 0
  {
    var element, gap := [Check, On, Wait(dits), Off], if more then [Wait(1)] else [];
    DurationConcat(element, gap);
    DurationConcat([Check, On], [Wait(dits), Off]);
    assert element == [Check, On] + [Wait(dits), Off] && [Wait(dits), Off][1..] == [Off] && [Check, On][1..] == [On];
    assert Duration([On]) == 0 && Duration([Off]) == 0;
    assert gap == [] || gap[1..] == [];
  }

  /** A character takes the time of its code, and three dits more unless it ends its word; one that has no code takes
      no time. */
  lemma CharTakes(c: char, last: bool)
    ensures Duration(CharScript(c, last)) ==
            if Code(c) == "" then 0 else CodeTime(Code(c)) + if last then 0 else 3
  {
    hide Code, Number, CodeScript;
    NumberOfCode(c);
    assert [Check][1..] == [] && Duration([Check]) == 0;
    assert [Wait(3)][1..] == [] && Duration([Wait(3)]) == 3;
    if Known(c) {
      CodeTakes(Code(c), 0);
      assert Code(c)[0..] == Code(c);
      DurationConcat([Check], CodeScript(Code(c), 0));
      DurationConcat([Check] + CodeScript(Code(c), 0), if last then [] else [Wait(3)]);
    }
  }

  /** The word by which speeds are measured takes fifty dits, with the pause behind it. */
  lemma ParisTakesFiftyDits()
    ensures Duration(Script(["PARIS"], 0) + [Wait(7)]) == 50
  {
    hide WordScript;
    var word := WordScript("PARIS", 0);
    assert Script(["PARIS"], 0) == [Check] + word;
    DurationConcat([Check], word);
    DurationConcat([Check] + word, [Wait(7)]);
    assert [Check][1..] == [] && [Wait(7)][1..] == [];
    ParisTakes();
  }

  lemma ParisTakes()
    ensures Duration(WordScript("PARIS", 0)) == 43
  {
    hide Code, CodeTime, WordScript, Duration;
    Letters();
    WordTakes("PARIS", 4);
    WordTakes("PARIS", 3);
    WordTakes("PARIS", 2);
    WordTakes("PARIS", 1);
    WordTakes("PARIS", 0);
  }

  lemma WordTakes(word: string, i: nat)
    requires i < |word|
    ensures Duration(WordScript(word, i)) == Duration(WordScript(word, i + 1)) +
            if Code(word[i]) == "" then 0 else CodeTime(Code(word[i])) + if i + 1 == |word| then 0 else 3
    ensures Duration(WordScript(word, |word|)) == 0
  {
    hide Code, CharScript;
    DurationConcat(CharScript(word[i], i + 1 == |word|), WordScript(word, i + 1));
    CharTakes(word[i], i + 1 == |word|);
  }

  lemma Letters()
    ensures CodeTime(Code('P')) == 11 && CodeTime(Code('A')) == 5 && CodeTime(Code('R')) == 7
    ensures CodeTime(Code('I')) == 3 && CodeTime(Code('S')) == 5
    ensures Code('P') != "" && Code('A') != "" && Code('R') != "" && Code('I') != "" && Code('S') != ""
  {
    assert ".--."[1..] == "--." && "--."[1..] == "-." && "-."[1..] == ".";
    assert ".-"[1..] == "-" && ".-."[1..] == "-." && ".."[1..] == "." && "..."[1..] == "..";
  }

  // ----- the reader

  /** The table, one number for each code: its elements as binary digits behind a leading one. */
  function Number(code: string, n: nat): nat
    requires n <= |code|
  {
    if n == 0 then 1 else 2 * Number(code, n - 1) + Digit(code[n - 1])
  }

  function Digit(e: char): nat {
    if e == '-' then 1 else 0
  }

  lemma NumberUpToSix(code: string)
    requires |code| <= 6
    ensures |code| == 0 ==> Number(code, 0) == 1
    ensures |code| == 1 ==> Number(code, 1) == 2 + Digit(code[0])
    ensures |code| == 2 ==> Number(code, 2) == 4 + 2 * Digit(code[0]) + Digit(code[1])
    ensures |code| == 3 ==> Number(code, 3) == 8 + 4 * Digit(code[0]) + 2 * Digit(code[1]) + Digit(code[2])
    ensures |code| == 4 ==>
        Number(code, 4) == 16 + 8 * Digit(code[0]) + 4 * Digit(code[1]) + 2 * Digit(code[2]) + Digit(code[3])
    ensures |code| == 5 ==> Number(code, 5) == 32 + 16 * Digit(code[0]) + 8 * Digit(code[1]) + 4 * Digit(code[2])
                                               + 2 * Digit(code[3]) + Digit(code[4])
    ensures |code| == 6 ==> Number(code, 6) == 64 + 32 * Digit(code[0]) + 16 * Digit(code[1]) + 8 * Digit(code[2])
                                               + 4 * Digit(code[3]) + 2 * Digit(code[4]) + Digit(code[5])
  {
    hide Digit;
    assert Number(code, 0) == 1;
    assert |code| >= 1 ==> Number(code, 1) == 2 + Digit(code[0]);
    assert |code| >= 2 ==> Number(code, 2) == 2 * Number(code, 1) + Digit(code[1]);
    assert |code| >= 3 ==> Number(code, 3) == 2 * Number(code, 2) + Digit(code[2]);
    assert |code| >= 4 ==> Number(code, 4) == 2 * Number(code, 3) + Digit(code[3]);
    assert |code| >= 5 ==> Number(code, 5) == 2 * Number(code, 4) + Digit(code[4]);
    assert |code| >= 6 ==> Number(code, 6) == 2 * Number(code, 5) + Digit(code[5]);
  }

  /** The place of a character on the tree of the Morse code: from place one, a dot leads to twice the place and a dash
      to the one after that. */
  function NumberOf(c: char): nat {
    match c
    case 'A' => 5 case 'B' => 24 case 'C' => 26 case 'D' => 12 case 'E' => 2 case 'F' => 18
    case 'G' => 14 case 'H' => 16 case 'I' => 4 case 'J' => 23 case 'K' => 13 case 'L' => 20
    case 'M' => 7 case 'N' => 6 case 'O' => 15 case 'P' => 22 case 'Q' => 29 case 'R' => 10
    case 'S' => 8 case 'T' => 3 case 'U' => 9 case 'V' => 17 case 'W' => 11 case 'X' => 25
    case 'Y' => 27 case 'Z' => 28 case '0' => 63 case '1' => 47 case '2' => 39 case '3' => 35
    case '4' => 33 case '5' => 32 case '6' => 48 case '7' => 56 case '8' => 60 case '9' => 62
    case '/' => 50 case '=' => 49 case '?' => 76 case '.' => 85 case ',' => 115
    case _ => 1
  }

  /** A code and its number; its elements are dots and dashes. */
  predicate CodeIs(code: string, number: nat) {
    Number(code, |code|) == number && (forall e :: e in code ==> e == '.' || e == '-') && (code != "" ==> number > 1)
  }

  lemma NumberAToL(c: char)
    requires 'A' <= c <= 'L'
    ensures CodeIs(CodeAToL(c), NumberOf(c))
  {
    hide Number;
    NumberUpToSix(CodeAToL(c));
  }

  lemma NumberMToZ(c: char)
    requires 'M' <= c <= 'Z'
    ensures CodeIs(CodeMToZ(c), NumberOf(c))
  {
    hide Number;
    NumberUpToSix(CodeMToZ(c));
  }

  lemma NumberOfDigit(c: char)
    requires '0' <= c <= '9'
    ensures CodeIs(CodeOfDigit(c), NumberOf(c))
  {
    hide Number;
    NumberUpToSix(CodeOfDigit(c));
  }

  lemma NumberOfSign(c: char)
    requires !('A' <= c <= 'Z' || '0' <= c <= '9')
    ensures CodeIs(CodeOfSign(c), NumberOf(c))
  {
    hide Number;
    NumberUpToSix(CodeOfSign(c));
  }

  /** The code of every character leads to its place on the tree, and no other character has a code. */
  lemma NumberOfCode(c: char)
    ensures CodeIs(Code(c), NumberOf(c))
  {
    hide CodeIs, CodeAToL, CodeMToZ, CodeOfDigit, CodeOfSign, NumberOf;
    if 'A' <= c <= 'L' {
      NumberAToL(c);
    } else if 'M' <= c <= 'Z' {
      NumberMToZ(c);
    } else if '0' <= c <= '9' {
      NumberOfDigit(c);
    } else {
      NumberOfSign(c);
    }
  }

  /** No two characters have one code. */
  lemma CodesDiffer(c: char, d: char)
    requires Known(c) && Code(c) == Code(d)
    ensures c == d
  {
    hide Code, Number;
    NumberOfCode(c);
    NumberOfCode(d);
  }

  /** Up to five a digit has as many dots, and then dashes; from six on five fewer dashes, and then dots. */
  lemma DigitsAreRegular(d: nat, i: nat)
    requires d < 10 && i < 5
    ensures var code := Code('0' + d as char);
            |code| == 5 && code[i] == if d <= 5 then (if i < d then '.' else '-') else (if i < d - 5 then '-' else '.')
  {
  }

  /** The character of a code, if there is one. */
  ghost function CharOf(code: string): string {
    if c: char :| Known(c) && Code(c) == code then [c] else ""
  }

  lemma CharOfCode(c: char)
    requires Known(c)
    ensures CharOf(Code(c)) == [c]
  {
    forall d: char | Known(d) && Code(d) == Code(c) ensures d == c {
      CodesDiffer(c, d);
    }
  }

  /** What a listener has made out: whole words, the word under way, the code under way, and the pause since. */
  datatype Listener = Listener(words: seq<string>, word: string, code: string, pause: nat, down: bool)

  /** A new element: after a pause of three dits it belongs to a new character, after seven to a new word. */
  ghost function NewElement(l: Listener): Listener {
    if l.code == "" || l.pause < 3 then l
    else if l.pause < 7 then l.(word := l.word + CharOf(l.code), code := "")
    else l.(words := l.words + [l.word + CharOf(l.code)], word := "", code := "")
  }

  ghost function Hear(l: Listener, step: Step): Listener {
    match step
    case On => NewElement(l).(down := true)
    case Off => l.(down := false, pause := 0)
    case Wait(d) => if l.down then l.(code := l.code + [if d < 2 then '.' else '-']) else l.(pause := l.pause + d)
    case Check => l
  }

  ghost function HearAll(l: Listener, steps: seq<Step>): Listener
    decreases |steps|
  {
    if steps == [] then l else HearAll(Hear(l, steps[0]), steps[1..])
  }

  ghost function Heard(l: Listener): seq<string> {
    if l.code == "" then l.words else l.words + [l.word + CharOf(l.code)]
  }

  /** The words that can be keyed: unknown characters left out, and words of nothing else. */
  function Keyable(word: string): string {
    if word == "" then "" else (if Known(word[0]) then [word[0]] else "") + Keyable(word[1..])
  }

  function KeyableWords(words: seq<string>): seq<string> {
    if words == [] then [] else (if Keyable(words[0]) != "" then [Keyable(words[0])] else []) + KeyableWords(words[1..])
  }

  lemma {:induction false} HearConcat(l: Listener, a: seq<Step>, b: seq<Step>)
    ensures HearAll(l, a + b) == HearAll(HearAll(l, a), b)
    decreases |a|
  {
    hide Hear;
    if a == [] {
      assert a + b == b;
    } else {
      var all := a + b;
      assert all[0] == a[0] && all[1..] == a[1..] + b;
      HearConcat(Hear(l, a[0]), a[1..], b);
    }
  }

  lemma {:induction false} HearTimeline(l: Listener, script: seq<Step>)
    ensures HearAll(l, Timeline(script)) == HearAll(l, script)
    decreases |script|
  {
    if script != [] {
      hide Hear;
      HearTimeline(Hear(l, script[0]), script[1..]);
      if script[0].Check? {
        assert Timeline(script) == Timeline(script[1..]);
        HearCheck(l);
      } else {
        assert Timeline(script)[1..] == Timeline(script[1..]);
      }
    }
  }

  lemma HearElement(l: Listener, e: char)
    requires !l.down && (e == '.' || e == '-')
    ensures HearAll(l, [Check, On, Wait(Dits(e)), Off]) ==
            NewElement(l).(code := NewElement(l).code + [e], pause := 0, down := false)
  {
    hide HearAll, NewElement;
    var l1, l2 := Hear(l, Check), Hear(Hear(l, Check), On);
    var l3 := Hear(l2, Wait(Dits(e)));
    HearFirst(l, Check, [On, Wait(Dits(e)), Off]);
    HearFirst(l1, On, [Wait(Dits(e)), Off]);
    HearFirst(l2, Wait(Dits(e)), [Off]);
    HearFirst(l3, Off, []);
    HearNothing(Hear(l3, Off));
    assert [Check] + [On, Wait(Dits(e)), Off] == [Check, On, Wait(Dits(e)), Off];
    assert [On] + [Wait(Dits(e)), Off] == [On, Wait(Dits(e)), Off] && [Wait(Dits(e))] + [Off] == [Wait(Dits(e)), Off];
    assert [Off] + [] == [Off];
    NewElementIsUp(l);
  }

  lemma NewElementIsUp(l: Listener)
    ensures NewElement(l).down == l.down
  {
  }

  lemma HearFirst(l: Listener, step: Step, rest: seq<Step>)
    ensures HearAll(l, [step] + rest) == HearAll(Hear(l, step), rest)
  {
    hide Hear;
    assert ([step] + rest)[1..] == rest;
  }

  lemma HearNothing(l: Listener)
    ensures HearAll(l, []) == l
  {
  }

  lemma HearCheck(l: Listener)
    ensures Hear(l, Check) == l
  {
  }

  lemma HearWait(l: Listener, d: nat)
    requires !l.down
    ensures HearAll(l, [Wait(d)]) == l.(pause := l.pause + d)
  {
    assert [Wait(d)][1..] == [];
  }

  /** The elements of a code from the `i`-th on, the earlier ones having been heard. */
  lemma {:induction false} HearCode(l: Listener, code: string, i: nat)
    requires i < |code| && !l.down && (forall e :: e in code ==> e == '.' || e == '-')
    requires l.code == code[..i] && (i > 0 ==> l.pause < 3)
    ensures HearAll(l, CodeScript(code, i)) == l.(code := code, pause := 0)
    decreases |code| - i
  {
    hide HearAll, CharOf;
    var element := [Check, On, Wait(Dits(code[i])), Off];
    assert code[i] in code;
    HearElement(l, code[i]);
    var l1 := l.(code := code[..i + 1], pause := 0);
    assert code[..i] + [code[i]] == code[..i + 1];
    assert HearAll(l, element) == l1;
    if i + 1 < |code| {
      HearConcat(l, element + [Wait(1)], CodeScript(code, i + 1));
      HearConcat(l, element, [Wait(1)]);
      HearWait(l1, 1);
      HearCode(l1.(pause := 1), code, i + 1);
    } else {
      assert CodeScript(code, i) == element;
      assert code[..i + 1] == code;
    }
  }

  /** One character of a word, heard from a listener that is not in the middle of a code. */
  lemma HearChar(l: Listener, c: char, last: bool)
    requires !l.down && (l.code == "" || l.pause >= 3)
    ensures HearAll(l, CharScript(c, last)) ==
            if Known(c) then NewElement(l).(code := Code(c), pause := if last then 0 else 3) else l
  {
    hide HearAll, Code, CodeScript, CharOf;
    HearFirst(l, Check, []);
    HearNothing(l);
    assert [Check] + [] == [Check];
    if Known(c) {
      var code, gap := CodeScript(Code(c), 0), if last then [] else [Wait(3)];
      HearConcat(l, [Check] + code, gap);
      HearConcat(l, [Check], code);
      CodeIsDotsAndDashes(c);
      HearCodeAnew(l, Code(c));
      var l1 := NewElement(l).(code := Code(c), pause := 0);
      if last {
        HearNothing(l1);
      } else {
        HearWait(l1, 3);
      }
    }
  }

  lemma CodeIsDotsAndDashes(c: char)
    ensures forall e :: e in Code(c) ==> e == '.' || e == '-'
  {
    hide Code, Number, NumberOf;
    NumberOfCode(c);
  }

  /** The first element of a code is what ends the character before it. */
  lemma HearCodeAnew(l: Listener, code: string)
    requires !l.down && (l.code == "" || l.pause >= 3)
    requires code != "" && forall e :: e in code ==> e == '.' || e == '-'
    ensures HearAll(l, CodeScript(code, 0)) == NewElement(l).(code := code, pause := 0)
  {
    hide HearAll, CharOf;
    var l' := NewElement(l);
    assert l'.code == "" && !l'.down;
    HearCode(l', code, 0);
    assert code[0] in code;
    SameNewElement(l, code);
  }

  /** From its first element on, a code sounds alike whether the character before was taken down or not. */
  lemma SameNewElement(l: Listener, code: string)
    requires !l.down && (l.code == "" || l.pause >= 3) && code != "" && (code[0] == '.' || code[0] == '-')
    ensures HearAll(l, CodeScript(code, 0)) == HearAll(NewElement(l), CodeScript(code, 0))
  {
    hide HearAll, CharOf;
    var element := [Check, On, Wait(Dits(code[0])), Off];
    var rest := (if 1 < |code| then [Wait(1)] else []) + CodeScript(code, 1);
    assert CodeScript(code, 0) == element + rest;
    HearConcat(l, element, rest);
    HearConcat(NewElement(l), element, rest);
    HearElement(l, code[0]);
    HearElement(NewElement(l), code[0]);
    assert NewElement(NewElement(l)) == NewElement(l);
  }

  /** Between words: `done` is what was heard so far, and the next element starts a word. */
  ghost predicate Between(l: Listener, done: seq<string>) {
    !l.down && Heard(l) == done && (l.code == "" ==> l.word == "") && (l.code != "" ==> l.pause >= 7)
  }

  /** In a word of which `part` was heard; the next element starts a character, unless there is none. */
  ghost predicate InWord(l: Listener, done: seq<string>, part: string, more: bool) {
    && !l.down && l.words == done && l.code != "" && l.word + CharOf(l.code) == part
    && (l.pause == 3 || (l.pause == 0 && !more))
  }

  lemma {:induction false} HearWord(l: Listener, word: string, i: nat, done: seq<string>, part: string)
    requires i <= |word|
    requires if part == "" then Between(l, done) else InWord(l, done, part, i < |word|)
    ensures var all := part + Keyable(word[i..]); var l' := HearAll(l, WordScript(word, i));
            if all == "" then l' == l else InWord(l', done, all, false)
    decreases |word| - i
  {
    hide HearAll, CharOf, Code, CharScript;
    if i == |word| {
      HearNothing(l);
      assert part + "" == part;
    } else {
      var c, last := word[i], i + 1 == |word|;
      HearChar(l, c, last);
      HearConcat(l, CharScript(c, last), WordScript(word, i + 1));
      assert word[i..][1..] == word[i + 1..];
      var l1 := HearAll(l, CharScript(c, last));
      var part1 := if Known(c) then part + [c] else part;
      assert part1 + Keyable(word[i + 1..]) == part + Keyable(word[i..]);
      if Known(c) {
        CharOfCode(c);
      }
      HearWord(l1, word, i + 1, done, part1);
    }
  }

  /** One word and the pause behind it. */
  lemma HearWordAndGap(l: Listener, word: string, more: bool, done: seq<string>)
    requires Between(l, done)
    ensures var l' := HearAll(l, [Check] + WordScript(word, 0) + if more then [Wait(7)] else []);
            var done' := if Keyable(word) == "" then done else done + [Keyable(word)];
            Heard(l') == done' && (more ==> Between(l', done'))
  {
    hide HearAll, CharOf, WordScript, Keyable;
    var script, gap := WordScript(word, 0), if more then [Wait(7)] else [];
    HearFirst(l, Check, []);
    HearNothing(l);
    assert [Check] + [] == [Check] && word[0..] == word && "" + Keyable(word) == Keyable(word);
    HearConcat(l, [Check] + script, gap);
    HearConcat(l, [Check], script);
    HearWord(l, word, 0, done, "");
    var l1 := HearAll(l, script);
    if more {
      HearWait(l1, 7);
    } else {
      HearNothing(l1);
    }
  }

  lemma {:induction false} HearWords(l: Listener, words: seq<string>, i: nat, done: seq<string>)
    requires i <= |words| && Between(l, done)
    ensures Heard(HearAll(l, Script(words, i))) == done + KeyableWords(words[i..])
    decreases |words| - i
  {
    hide HearAll, WordScript, Keyable, Between, Heard;
    if i == |words| {
      HearNothing(l);
      BetweenIsHeard(l, done);
    } else {
      var more, key := i + 1 < |words|, Keyable(words[i]);
      var script := [Check] + WordScript(words[i], 0) + if more then [Wait(7)] else [];
      HearWordAndGap(l, words[i], more, done);
      HearConcat(l, script, Script(words, i + 1));
      assert words[i..][1..] == words[i + 1..];
      var done' := if key == "" then done else done + [key];
      if more {
        HearWords(HearAll(l, script), words, i + 1, done');
      } else {
        LastWord(HearAll(l, script), words, i);
      }
    }
  }

  lemma BetweenIsHeard(l: Listener, done: seq<string>)
    ensures Between(l, done) ==> Heard(l) == done
  {
  }

  lemma LastWord(l: Listener, words: seq<string>, i: nat)
    requires i + 1 == |words|
    ensures HearAll(l, Script(words, i + 1)) == l && KeyableWords(words[i + 1..]) == []
  {
  }

  const SILENCE := Listener([], "", "", 0, false)

  /** Reading the pauses off the timeline of a message gives back its words in upper case, without the characters
      that have no code and without the words of nothing else. */
  lemma TimelineIsReadable(message: string)
    ensures var words := Words(ToUpper(message));
            Heard(HearAll(SILENCE, Timeline(Script(words, 0)))) == KeyableWords(words)
  {
    hide HearAll, Script, Words, KeyableWords;
    var words := Words(ToUpper(message));
    HearTimeline(SILENCE, Script(words, 0));
    HearWords(SILENCE, words, 0, []);
    assert words[0..] == words && [] + KeyableWords(words) == KeyableWords(words);
  }
}
