/**
 The PE4302 step attenuator on three bit-banged pins (pi/pe4302.py), against a model of the chip: a six-bit
 shift register that takes a bit at each rising clock edge while LE is low, and a latch that takes the
 register's word when LE rises.

 Decibels are exact; delays are left out.
 */
module PE4302 {
  import opened Rounding

  const STEP_DB: real := 0.5
  const MAX_CODE := 63
  const MAX_DB: real := MAX_CODE as real * STEP_DB

  datatype Pin = Data | Clk | Le

  // ----- words, the most significant bit first

  datatype Word = Word(d5: bool, d4: bool, d3: bool, d2: bool, d1: bool, d0: bool) {
    /** A bit comes in at the low end; the highest is lost. */
    function Push(bit: bool): Word {
      Word(d4, d3, d2, d1, d0, bit)
    }
  }

  /** `code >> i`. */
  function Shifted(code: nat, i: nat): nat {
    if i == 0 then code else Shifted(code, i - 1) / 2
  }

  /** `(code >> i) & 1`. */
  predicate Bit(code: nat, i: nat) {
    Shifted(code, i) % 2 == 1
  }

  /** The word that a code should arrive as. */
  function WordOf(code: nat): Word {
    Word(Bit(code, 5), Bit(code, 4), Bit(code, 3), Bit(code, 2), Bit(code, 1), Bit(code, 0))
  }

  function Weight(bit: bool, db: real): real {
    if bit then db else 0.0
  }

  /** The attenuation that a latched word stands for. */
  function Attenuation(w: Word): real {
    Weight(w.d5, 16.0) + Weight(w.d4, 8.0) + Weight(w.d3, 4.0) +
    Weight(w.d2, 2.0) + Weight(w.d1, 1.0) + Weight(w.d0, 0.5)
  }

  // ----- the chip

  class Chip {
    var data: bool
    var clk: bool
    var le: bool
    var shift: Word
    /** Every word that was latched, the last one in force. */
    var latched: seq<Word>

    method Write(pin: Pin, level: bool)
      modifies this
      ensures data == (if pin == Data then level else old(data))
      ensures clk == (if pin == Clk then level else old(clk))
      ensures le == (if pin == Le then level else old(le))
      ensures shift == if pin == Clk && level && !old(clk) && !old(le) then old(shift).Push(old(data)) else old(shift)
      ensures latched == if pin == Le && level && !old(le) then old(latched) + [old(shift)] else old(latched)
    {
      match pin
      case Data =>
        data := level;
      case Clk =>
        if level && !clk && !le {
          shift := shift.Push(data);
        }
        clk := level;
      case Le =>
        if level && !le {
          latched := latched + [shift];
        }
        le := level;
    }
  }

  // ----- the driver

  datatype Result = Ok(db: real) | NotInitialized | OutOfRange

  class Driver {
    const chip: Chip
    var currentDb: real
    var initialized: bool

    constructor (chip: Chip)
      ensures this.chip == chip && currentDb == 0.0 && !initialized
    {
      this.chip := chip;
      currentDb, initialized := 0.0, false;
    }

    /** Whatever was in the register and on the pins, one word is latched: that of the code. */
    method ShiftOut(code: nat)
      modifies chip
      ensures chip.latched == old(chip.latched) + [WordOf(code)]
      ensures !chip.le && !chip.clk
    {
      hide Bit;
      ghost var before := chip.shift;
      chip.Write(Le, false);
      var i := 5;
      while i >= 0
        invariant -1 <= i <= 5 && !chip.le && chip.latched == old(chip.latched)
        invariant chip.shift == Pushed(before, code, i + 1)
      {
        var bit := Bit(code, i);
        chip.Write(Clk, false);
        chip.Write(Data, bit);
        chip.Write(Clk, true);
        i := i - 1;
      }
      chip.Write(Clk, false);
      AllPushed(before, code);
      chip.Write(Le, true);
      chip.Write(Le, false);
    }

    /** Sets the attenuation and returns what was set: the chip then has it in force, within a quarter decibel of
        the request. */
    method SetDb(db: real) returns (r: Result)
      modifies this`currentDb, chip
      ensures !initialized ==> r == NotInitialized
      ensures initialized && !(0.0 <= db <= MAX_DB) ==> r == OutOfRange
      ensures initialized && 0.0 <= db <= MAX_DB ==>
        && r.Ok? && currentDb == r.db == Round(db / STEP_DB) as real * STEP_DB && -0.25 <= r.db - db <= 0.25
        && |chip.latched| == |old(chip.latched)| + 1 && old(chip.latched) <= chip.latched
        && Attenuation(chip.latched[|chip.latched| - 1]) == r.db
      ensures !r.Ok? ==> currentDb == old(currentDb) && chip.latched == old(chip.latched)
    {
      hide Bit, Attenuation;
      if !initialized {
        return NotInitialized;
      }
      if !(0.0 <= db <= MAX_DB) {
        return OutOfRange;
      }
      var code := Round(db / STEP_DB) % 64;
      MaskKeeps(db);
      WordMeansCode(code);
      ShiftOut(code);
      currentDb := code as real * STEP_DB;
      r := Ok(currentDb);
    }

    /** Latches 0 dB. */
    method Init()
      modifies this, chip
      ensures initialized && currentDb == 0.0
      ensures |chip.latched| > 0 && Attenuation(chip.latched[|chip.latched| - 1]) == 0.0
    {
      chip.Write(Data, false);
      chip.Write(Clk, false);
      chip.Write(Le, false);
      initialized := true;
      var r := SetDb(0.0);
      assert Round(0.0) == 0;
    }
  }

  /** The mask never changes a code that a request in range leads to. */
  lemma MaskKeeps(db: real)
    requires 0.0 <= db <= MAX_DB
    ensures var code := Round(db / STEP_DB);
            && 0 <= code <= MAX_CODE && code % 64 == code
            && -0.25 <= code as real * STEP_DB - db <= 0.25
  {
    RoundIsNearest(db / STEP_DB);
  }

  /** The weights of the word of a code add up to half a decibel for each unit of its lowest six bits. */
  lemma WordMeansCode(code: nat)
    ensures Attenuation(WordOf(code)) == (code % 64) as real * STEP_DB
  {
    hide Shifted, Attenuation;
    Shifts(code);
    var c1, c2, c3, c4, c5 := Shifted(code, 1), Shifted(code, 2), Shifted(code, 3), Shifted(code, 4), Shifted(code, 5);
    SixBits(code, c1, c2, c3, c4, c5);
    AddUp(c5 % 2, c4 % 2, c3 % 2, c2 % 2, c1 % 2, code % 2, code % 64);
  }

  lemma AddUp(b5: nat, b4: nat, b3: nat, b2: nat, b1: nat, b0: nat, total: nat)
    requires b5 < 2 && b4 < 2 && b3 < 2 && b2 < 2 && b1 < 2 && b0 < 2
    requires total == 32 * b5 + 16 * b4 + 8 * b3 + 4 * b2 + 2 * b1 + b0
    ensures Attenuation(Word(b5 == 1, b4 == 1, b3 == 1, b2 == 1, b1 == 1, b0 == 1)) == total as real * STEP_DB
  {
  }

  lemma Shifts(code: nat)
    ensures Shifted(code, 0) == code
    ensures Shifted(code, 1) == code / 2 && Shifted(code, 2) == Shifted(code, 1) / 2
        && Shifted(code, 3) == Shifted(code, 2) / 2
    ensures Shifted(code, 4) == Shifted(code, 3) / 2 && Shifted(code, 5) == Shifted(code, 4) / 2
  {
  }

  lemma SixBits(code: nat, c1: nat, c2: nat, c3: nat, c4: nat, c5: nat)
    requires c1 == code / 2 && c2 == c1 / 2 && c3 == c2 / 2 && c4 == c3 / 2 && c5 == c4 / 2
    ensures code % 64 == 32 * (c5 % 2) + 16 * (c4 % 2) + 8 * (c3 % 2) + 4 * (c2 % 2) + 2 * (c1 % 2) + code % 2
  {
    Halves(code, c1);
    Halves(c1, c2);
    Halves(c2, c3);
    Halves(c3, c4);
    Halves(c4, c5);
    Halves(c5, c5 / 2);
    Lowest(c5 / 2, 32 * (c5 % 2) + 16 * (c4 % 2) + 8 * (c3 % 2) + 4 * (c2 % 2) + 2 * (c1 % 2) + code % 2, code);
  }

  lemma Halves(c: nat, half: nat)
    requires half == c / 2
    ensures c == 2 * half + c % 2 && 0 <= c % 2 <= 1
  {
  }

  lemma Lowest(high: nat, low: nat, code: nat)
    requires code == 64 * high + low && low < 64
    ensures code % 64 == low
  {
  }

  /** The register after the bits of a code from the fifth down to the `i`-th were shifted in. */
  function Pushed(before: Word, code: nat, i: nat): Word
    requires i <= 6
    decreases 6 - i
  {
    if i == 6 then before else Pushed(before, code, i + 1).Push(Bit(code, i))
  }

  /** Six shifts leave nothing of what was there. */
  lemma AllPushed(before: Word, code: nat)
    ensures Pushed(before, code, 0) == WordOf(code)
  {
    hide Bit;
    assert Pushed(before, code, 4) == before.Push(Bit(code, 5)).Push(Bit(code, 4));
    assert Pushed(before, code, 2) == Pushed(before, code, 4).Push(Bit(code, 3)).Push(Bit(code, 2));
    assert Pushed(before, code, 0) == Pushed(before, code, 2).Push(Bit(code, 1)).Push(Bit(code, 0));
  }
}
