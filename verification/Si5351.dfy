/**
 Frequency synthesis with the Si5351 clock generator (pi/si5351.py), by the divider equations of
 Silicon Labs AN619: output = crystal * (PLL multiplier) / (MultiSynth divider).

 Frequencies are exact rationals in Hz; the rounding of binary floating point is left out, but
 `round` is Python's, half to even.  The register file is a map from register number to byte.
 */
module Si5351 {
  import opened Options
  import opened Rounding

  const XTAL_FREQ: real := 25_000_000.0
  const PLL_FREQ_MIN: real := 600_000_000.0
  const PLL_FREQ_MAX: real := 900_000_000.0
  const MS_DIV_MIN := 8
  const MS_DIV_MAX := 1800
  const OUT_FREQ_MIN: real := PLL_FREQ_MIN / 1800.0
  const OUT_FREQ_MAX: real := PLL_FREQ_MAX / 8.0
  const DENOM := 1_048_575

  const REG_CLK_CONTROL_BASE := 16
  const REG_MSNA_BASE := 26
  const REG_MSNB_BASE := 34
  const REG_MS_BASE := 42
  const REG_PLL_RESET := 177

  predicate InRange(freq: real) {
    OUT_FREQ_MIN <= freq <= OUT_FREQ_MAX
  }

  /** From a third of a megahertz to 112.5 MHz, both included. */
  lemma RangeExactly(freq: real)
    ensures InRange(freq) <==> 1_000_000.0 <= 3.0 * freq && freq <= 112_500_000.0
  {
    assert OUT_FREQ_MIN * 3.0 == 1_000_000.0 && OUT_FREQ_MAX == 112_500_000.0;
  }

  // ----- the output divider

  /** The largest even divider that keeps the VCO at or below its maximum, capped by the chip. */
  function BestDivider(freq: real): int
    requires freq > 0.0
  {
    var even := 2 * (PLL_FREQ_MAX / (2.0 * freq)).Floor;
    if even < MS_DIV_MAX then even else MS_DIV_MAX
  }

  lemma ScaleLess(f: real, a: real, b: real)
    requires f > 0.0
    ensures a < b <==> f * a < f * b
    ensures a <= b <==> f * a <= f * b
  {
    if a < b {
      assert f * (b - a) > 0.0;
    } else {
      assert f * (a - b) >= 0.0;
    }
  }

  lemma Distribute(f: real, a: real, b: real)
    ensures f * (a + b) == f * a + f * b
  {
  }

  /** Around the quotient q = PLL_FREQ_MAX / freq: the best divider is even and just below q. */
  lemma BestDividerBounds(freq: real)
    requires InRange(freq)
    ensures var q := PLL_FREQ_MAX / freq; var d := BestDivider(freq);
            && freq * q == PLL_FREQ_MAX && 8.0 <= q
            && d % 2 == 0 && MS_DIV_MIN <= d <= MS_DIV_MAX && d as real <= q
            && (d < MS_DIV_MAX ==> q < d as real + 2.0)
  {
    var q := PLL_FREQ_MAX / freq;
    assert freq * q == PLL_FREQ_MAX;
    ScaleLess(freq, q, 8.0);
    assert freq * 8.0 <= PLL_FREQ_MAX;
    var h := PLL_FREQ_MAX / (2.0 * freq);
    assert h == q / 2.0;
    assert h.Floor >= 4;
  }

  function Vco(freq: real, msDiv: int): real {
    freq * msDiv as real
  }

  /** The best divider puts the VCO in range. */
  lemma VcoBounds(freq: real)
    requires InRange(freq)
    ensures PLL_FREQ_MIN <= Vco(freq, BestDivider(freq)) <= PLL_FREQ_MAX
  {
    var q := PLL_FREQ_MAX / freq;
    var d := BestDivider(freq) as real;
    BestDividerBounds(freq);
    ScaleLess(freq, d, q);
    assert freq * d <= PLL_FREQ_MAX;
    if BestDivider(freq) == MS_DIV_MAX {
      ScaleLess(d, OUT_FREQ_MIN, freq);
    } else {
      ScaleLess(freq, q, d + 2.0);
      Distribute(freq, d, 2.0);
      assert PLL_FREQ_MAX < freq * d + freq * 2.0;
      assert freq <= 112_500_000.0;
    }
  }

  /** The first guess: the quotient rounded, made even, and kept in range. */
  function FirstGuess(freq: real): int
    requires freq > 0.0
  {
    var rounded := Round(PLL_FREQ_MAX / freq);
    var atLeast := if rounded < MS_DIV_MIN then MS_DIV_MIN else rounded;
    var even := if atLeast % 2 != 0 then atLeast + 1 else atLeast;
    if even > MS_DIV_MAX then MS_DIV_MAX else even
  }

  /** The first guess is right, or one step too high. */
  lemma StartingDivider(freq: real)
    requires InRange(freq)
    ensures FirstGuess(freq) == BestDivider(freq)
            || (FirstGuess(freq) == BestDivider(freq) + 2 && BestDivider(freq) < MS_DIV_MAX)
  {
    BestDividerBounds(freq);
    RoundIsNearest(PLL_FREQ_MAX / freq);
  }

  /** One step too high is too fast for the VCO. */
  lemma TooFast(freq: real)
    requires InRange(freq)
    ensures BestDivider(freq) < MS_DIV_MAX ==> Vco(freq, BestDivider(freq) + 2) > PLL_FREQ_MAX
  {
    BestDividerBounds(freq);
    ScaleLess(freq, PLL_FREQ_MAX / freq, (BestDivider(freq) + 2) as real);
  }

  /** The loop that slows the VCO down. */
  method LowerVco(freq: real, start: int) returns (msDiv: int)
    requires start >= MS_DIV_MIN && start % 2 == 0
    ensures MS_DIV_MIN <= msDiv <= start && msDiv % 2 == 0
    ensures Vco(freq, msDiv) <= PLL_FREQ_MAX || msDiv == MS_DIV_MIN
    ensures forall d :: msDiv < d <= start && d % 2 == 0 ==> Vco(freq, d) > PLL_FREQ_MAX
  {
    hide Vco;
    msDiv := start;
    var vco := Vco(freq, msDiv);
    while vco > PLL_FREQ_MAX && msDiv > MS_DIV_MIN
      invariant MS_DIV_MIN <= msDiv <= start && msDiv % 2 == 0
      invariant vco == Vco(freq, msDiv)
      invariant forall d :: msDiv < d <= start && d % 2 == 0 ==> Vco(freq, d) > PLL_FREQ_MAX
      decreases msDiv
    {
      msDiv := msDiv - 2;
      vco := Vco(freq, msDiv);
    }
  }

  /** The loop that speeds the VCO up, never past the largest divider of the chip. */
  method RaiseVco(freq: real, start: int) returns (msDiv: int)
    requires start <= MS_DIV_MAX && start % 2 == 0
    ensures start <= msDiv <= MS_DIV_MAX && msDiv % 2 == 0
    ensures Vco(freq, msDiv) >= PLL_FREQ_MIN || msDiv == MS_DIV_MAX
    ensures forall d :: start <= d < msDiv && d % 2 == 0 ==> Vco(freq, d) < PLL_FREQ_MIN
  {
    hide Vco;
    msDiv := start;
    var vco := Vco(freq, msDiv);
    while vco < PLL_FREQ_MIN && msDiv + 2 <= MS_DIV_MAX
      invariant start <= msDiv <= MS_DIV_MAX && msDiv % 2 == 0
      invariant vco == Vco(freq, msDiv)
      invariant forall d :: start <= d < msDiv && d % 2 == 0 ==> Vco(freq, d) < PLL_FREQ_MIN
      decreases MS_DIV_MAX - msDiv
    {
      msDiv := msDiv + 2;
      vco := Vco(freq, msDiv);
    }
  }

  /** The divider search of `set_frequency` stops at the best divider, and its second loop has nothing to do. */
  method FindDivider(freq: real) returns (msDiv: int, vco: real)
    requires InRange(freq)
    ensures msDiv == BestDivider(freq) && vco == Vco(freq, msDiv)
    ensures msDiv % 2 == 0 && MS_DIV_MIN <= msDiv <= MS_DIV_MAX && PLL_FREQ_MIN <= vco <= PLL_FREQ_MAX
  {
    hide Vco;
    BestDividerBounds(freq);
    VcoBounds(freq);
    TooFast(freq);
    StartingDivider(freq);
    msDiv := Round(PLL_FREQ_MAX / freq);
    if msDiv < MS_DIV_MIN {
      msDiv := MS_DIV_MIN;
    }
    if msDiv % 2 != 0 {
      msDiv := msDiv + 1;
    }
    if msDiv > MS_DIV_MAX {
      msDiv := MS_DIV_MAX;
    }
    msDiv := LowerVco(freq, msDiv);
    assert msDiv == BestDivider(freq);
    msDiv := RaiseVco(freq, msDiv);
    assert msDiv == BestDivider(freq);
    vco := Vco(freq, msDiv);
  }

  // ----- the fractional PLL

  /** The PLL multiplier is `whole + num / DENOM`. */
  datatype Multiplier = Multiplier(whole: int, num: int) {
    predicate Valid() {
      24 <= whole <= 36 && 0 <= num < DENOM && (whole == 36 ==> num == 0)
    }

    function Value(): real {
      whole as real + num as real / DENOM as real
    }
  }

  function Solve(vco: real): Multiplier {
    var mult := vco / XTAL_FREQ;
    var whole := mult.Floor;
    var num := Round((mult - whole as real) * DENOM as real);
    if num == DENOM then Multiplier(whole + 1, 0) else Multiplier(whole, num)
  }

  /** The multiplier is one the chip can do, and it is off by at most half a step. */
  lemma SolveIsNearest(vco: real)
    requires PLL_FREQ_MIN <= vco <= PLL_FREQ_MAX
    ensures var m := Solve(vco);
            && m.Valid()
            && -XTAL_FREQ / (2.0 * DENOM as real) <= XTAL_FREQ * m.Value() - vco <= XTAL_FREQ / (2.0 * DENOM as real)
  {
    var mult := vco / XTAL_FREQ;
    assert 24.0 <= mult <= 36.0;
    var part := mult - mult.Floor as real;
    RoundIsNearest(part * DENOM as real);
    assert 0.0 <= part * DENOM as real < DENOM as real;
    if mult == 36.0 {
      assert part == 0.0;
    }
  }

  // ----- the register file

  type Registers = map<int, int>

  /** The eight bytes of a MultiSynth block, for the ratio `div + num / denom`. */
  function Block(div: int, num: int, denom: int): (bytes: seq<int>)
    requires denom > 0
    ensures |bytes| == 8
  {
    var q := 128 * num / denom;
    Pack(128 * div + q - 512, 128 * num - denom * q, denom)
  }

  function Pack(p1: int, p2: int, p3: int): (bytes: seq<int>)
    ensures |bytes| == 8 && forall i :: 0 <= i < 8 ==> 0 <= bytes[i] < 256
  {
    [p3 / 256 % 256, p3 % 256,
     p1 / 65536 % 4, p1 / 256 % 256, p1 % 256,
     p3 / 65536 % 16 * 16 + p2 / 65536 % 16, p2 / 256 % 256, p2 % 256]
  }

  /** What the chip makes of a block: P1, P2 and P3, 18, 20 and 20 bits wide. */
  function P1(b: seq<int>): int requires |b| == 8 { b[2] % 4 * 65536 + b[3] * 256 + b[4] }
  function P2(b: seq<int>): int requires |b| == 8 { b[5] % 16 * 65536 + b[6] * 256 + b[7] }
  function P3(b: seq<int>): int requires |b| == 8 { b[5] / 16 * 65536 + b[0] * 256 + b[1] }

  /** The divider equation of AN619 solved for the ratio: (P1 + 512 + P2 / P3) / 128. */
  function Ratio(b: seq<int>): real
    requires |b| == 8
  {
    if P3(b) == 0 then 0.0 else ((P1(b) + 512) as real + P2(b) as real / P3(b) as real) / 128.0
  }

  lemma UnpackPack(p1: int, p2: int, p3: int)
    requires 0 <= p1 < 0x4_0000 && 0 <= p2 < 0x10_0000 && 0 <= p3 < 0x10_0000
    ensures var b := Pack(p1, p2, p3); P1(b) == p1 && P2(b) == p2 && P3(b) == p3
  {
    ThreeBytes(p1);
    ThreeBytes(p2);
    ThreeBytes(p3);
  }

  lemma ThreeBytes(p: int)
    requires 0 <= p < 0x100_0000
    ensures p == p / 65536 * 65536 + p / 256 % 256 * 256 + p % 256
    ensures p < 0x10_0000 ==> p / 65536 % 16 == p / 65536
    ensures p < 0x4_0000 ==> p / 65536 % 4 == p / 65536
  {
  }

  /** A block decodes to exactly the ratio it was written for, and its parameters fit their fields. */
  lemma BlockDecodes(div: int, num: int, denom: int)
    requires 8 <= div < 2048 && 0 <= num < denom < 0x10_0000
    ensures Ratio(Block(div, num, denom)) == div as real + num as real / denom as real
    ensures var b := Block(div, num, denom);
            0 <= P1(b) < 0x4_0000 && 0 <= P2(b) < P3(b) == denom
  {
    var q := 128 * num / denom;
    var p2 := 128 * num - denom * q;
    assert p2 == 128 * num % denom;
    assert 0 <= q < 128 by {
      QuotientSmall(128 * num, denom, q, p2);
    }
    UnpackPack(128 * div + q - 512, p2, denom);
    SplitFraction(num, denom, q, p2);
  }

  lemma ScaleInt(d: int, a: int, b: int)
    requires 0 <= d && a <= b
    ensures d * a <= d * b
  {
  }

  lemma QuotientSmall(n: int, d: int, q: int, r: int)
    requires 0 <= n < 128 * d && n == d * q + r && 0 <= r < d
    ensures 0 <= q < 128
  {
    if q < 0 {
      ScaleInt(d, q, -1);
    } else if q >= 128 {
      ScaleInt(d, 128, q);
    }
  }

  lemma SplitFraction(num: int, denom: int, q: int, p2: int)
    requires denom > 0 && p2 == 128 * num - denom * q
    ensures (q as real + p2 as real / denom as real) / 128.0 == num as real / denom as real
  {
    var d := denom as real;
    assert p2 as real == 128.0 * num as real - d * q as real;
    assert p2 as real / d == 128.0 * num as real / d - q as real;
  }

  function Get(regs: Registers, reg: int): int {
    if reg in regs then regs[reg] else 0
  }

  function BlockAt(regs: Registers, base: int): (b: seq<int>)
    ensures |b| == 8
  {
    seq(8, i => Get(regs, base + i))
  }

  /** The register file after the first `n` bytes of a block were written from `base` on. */
  function Blit(regs: Registers, base: int, b: seq<int>, n: nat): Registers
    requires n <= |b|
  {
    if n == 0 then regs else Blit(regs, base, b, n - 1)[base + n - 1 := b[n - 1]]
  }

  lemma {:induction false} GetBlit(regs: Registers, base: int, b: seq<int>, n: nat, reg: int)
    requires n <= |b|
    ensures Get(Blit(regs, base, b, n), reg) == if base <= reg < base + n then b[reg - base] else Get(regs, reg)
  {
    if n > 0 {
      GetBlit(regs, base, b, n - 1, reg);
    }
  }

  function PllBase(b: bool): int {
    if b then REG_MSNB_BASE else REG_MSNA_BASE
  }

  /** Bit `k` of a register. */
  predicate Bit(regs: Registers, reg: int, k: nat) {
    Get(regs, reg) / [1, 2, 4, 8, 16, 32, 64, 128][k % 8] % 2 == 1
  }

  /** Which PLL the control register of a channel selects. */
  predicate UsesPllB(regs: Registers, channel: int) {
    Bit(regs, REG_CLK_CONTROL_BASE + channel, 5)
  }

  /** The frequency at the pin of a channel, read off the registers. */
  function Output(regs: Registers, channel: int): real {
    var divider := Ratio(BlockAt(regs, REG_MS_BASE + 8 * channel));
    if divider == 0.0 then 0.0
    else XTAL_FREQ * Ratio(BlockAt(regs, PllBase(UsesPllB(regs, channel)))) / divider
  }

  /** The multiplier and the divider that a request leads to. */
  function MultiplierFor(freq: real): Multiplier
    requires freq > 0.0
  {
    Solve(Vco(freq, BestDivider(freq)))
  }

  function Reported(freq: real): real
    requires InRange(freq)
  {
    BestDividerBounds(freq);
    XTAL_FREQ * MultiplierFor(freq).Value() / BestDivider(freq) as real
  }

  lemma ProgramIs(regs: Registers, channel: int, freq: real, vco: real, msDiv: int, m: Multiplier)
    requires InRange(freq) && msDiv == BestDivider(freq) && vco == Vco(freq, msDiv) && m == Solve(vco)
    ensures Program(regs, channel, freq) == Load(regs, channel, Block(m.whole, m.num, DENOM), Block(msDiv, 0, 1))
    ensures msDiv >= 8
    ensures Reported(freq) == XTAL_FREQ * (m.whole as real + m.num as real / DENOM as real) / msDiv as real
  {
    hide Load, Block, BestDivider, Solve, Vco;
    BestDividerBounds(freq);
  }

  function PllBlock(m: Multiplier): (bytes: seq<int>)
    ensures |bytes| == 8
  {
    Block(m.whole, m.num, DENOM)
  }

  /** The register file after a successful request. */
  function Program(regs: Registers, channel: int, freq: real): Registers
    requires freq > 0.0
  {
    Load(regs, channel, PllBlock(MultiplierFor(freq)), Block(BestDivider(freq), 0, 1))
  }

  function Load(regs: Registers, channel: int, pll: seq<int>, ms: seq<int>): Registers
    requires |pll| == 8 && |ms| == 8
  {
    var regs1 := Blit(regs, PllBase(channel == 2), pll, 8);
    var regs2 := Blit(regs1, REG_MS_BASE + 8 * channel, ms, 8);
    var regs3 := regs2[REG_PLL_RESET := if channel == 2 then 0x80 else 0x20];
    regs3[REG_CLK_CONTROL_BASE + channel := if channel == 2 then 0x6C else 0x4C]
  }

  datatype Result = Ok(actual: real) | BadChannel | OutOfRange

  class Driver {
    var regs: Registers
    var chFreqs: map<int, real>

    constructor ()
      ensures regs == map[] && chFreqs == map[]
    {
      regs := map[];
      chFreqs := map[];
    }

    method Write(reg: int, value: int)
      modifies this`regs
      ensures regs == old(regs)[reg := value % 256]
    {
      regs := regs[reg := value % 256];
    }

    method WriteMsn(base: int, div: int, num: int, denom: int)
      requires denom > 0
      modifies this`regs
      ensures regs == Blit(old(regs), base, Block(div, num, denom), 8)
    {
      hide Pack;
      var q := 128 * num / denom;
      var block := Pack(128 * div + q - 512, 128 * num - denom * q, denom);
      for i := 0 to 8
        invariant regs == Blit(old(regs), base, block, i)
      {
        Write(base + i, block[i]);
      }
    }

    /** The fractional PLL multiplier for a VCO frequency. */
    method SolvePll(vco: real) returns (multInt: int, num: int)
      ensures Multiplier(multInt, num) == Solve(vco)
    {
      var mult := vco / XTAL_FREQ;
      multInt := mult.Floor;
      var frac := mult - multInt as real;
      num := Round(frac * DENOM as real);
      if num == DENOM {
        multInt := multInt + 1;
        num := 0;
      }
    }

    method LoadChannel(channel: int, multInt: int, num: int, msDiv: int)
      modifies this`regs
      ensures regs == Load(old(regs), channel, Block(multInt, num, DENOM), Block(msDiv, 0, 1))
    {
      hide Blit, Block;
      var pllIsB := channel == 2;
      WriteMsn(PllBase(pllIsB), multInt, num, DENOM);
      WriteMsn(REG_MS_BASE + 8 * channel, msDiv, 0, 1);
      Write(REG_PLL_RESET, if pllIsB then 0x80 else 0x20);
      Write(REG_CLK_CONTROL_BASE + channel, 0x40 + 0x0C + if pllIsB then 0x20 else 0);
    }

    method SetFrequency(channel: int, freq: real) returns (r: Result)
      modifies this
      ensures channel !in {0, 1, 2} ==> r == BadChannel
      ensures channel in {0, 1, 2} && !InRange(freq) ==> r == OutOfRange
      ensures channel in {0, 1, 2} && InRange(freq) ==> r == Ok(Reported(freq))
      ensures if r.Ok? then regs == Program(old(regs), channel, freq) && chFreqs == old(chFreqs)[channel := r.actual]
              else regs == old(regs) && chFreqs == old(chFreqs)
    {
      if channel !in {0, 1, 2} {
        return BadChannel;
      }
      if !(OUT_FREQ_MIN <= freq <= OUT_FREQ_MAX) {
        return OutOfRange;
      }
      hide Program, Reported, BestDivider, MultiplierFor, Vco;
      var msDiv, vco := FindDivider(freq);
      if !(PLL_FREQ_MIN <= vco <= PLL_FREQ_MAX) || msDiv > MS_DIV_MAX {
        assert false;    // the program would refuse the request here
      }
      var multInt, num := SolvePll(vco);
      ProgramIs(regs, channel, freq, vco, msDiv, Multiplier(multInt, num));
      LoadChannel(channel, multInt, num, msDiv);
      var actual := XTAL_FREQ * (multInt as real + num as real / DENOM as real) / msDiv as real;
      chFreqs := chFreqs[channel := actual];
      r := Ok(actual);
    }
  }

  // ----- what the pins do

  /** A request in range is off by less than a hertz and a half, and by at most half a PLL step. */
  lemma ReportedIsClose(freq: real)
    requires InRange(freq)
    ensures var bound := XTAL_FREQ / (2.0 * DENOM as real * BestDivider(freq) as real);
            -bound <= Reported(freq) - freq <= bound < 1.5
  {
    hide BestDivider, Solve, Round, Multiplier.Value;
    BestDividerBounds(freq);
    VcoBounds(freq);
    var vco := Vco(freq, BestDivider(freq));
    SolveIsNearest(vco);
    CloseAfterDivision(freq, BestDivider(freq) as real, XTAL_FREQ * Solve(vco).Value());
  }

  lemma CloseAfterDivision(freq: real, d: real, got: real)
    requires d >= 8.0
    requires var half := XTAL_FREQ / (2.0 * DENOM as real); -half <= got - freq * d <= half
    ensures var bound := XTAL_FREQ / (2.0 * DENOM as real * d); -bound <= got / d - freq <= bound < 1.5
  {
    var half := XTAL_FREQ / (2.0 * DENOM as real);
    assert got / d - freq == (got - freq * d) / d;
    assert XTAL_FREQ / (2.0 * DENOM as real * d) == half / d;
    DivideBound(got - freq * d, half, d);
    assert half / d <= half / 8.0;
  }

  lemma DivideBound(a: real, half: real, d: real)
    requires d > 0.0 && -half <= a <= half
    ensures -(half / d) <= a / d <= half / d
  {
    assert (a + half) / d >= 0.0 && (half - a) / d >= 0.0;
  }

  /** What stands where after a load: the PLL's block from register 26 or 34 on, the divider's from 42, 50 or 58 on. */
  lemma LoadedBlocks(regs: Registers, channel: int, pll: seq<int>, ms: seq<int>)
    requires channel in {0, 1, 2} && |pll| == 8 && |ms| == 8
    ensures var regs' := Load(regs, channel, pll, ms);
            && BlockAt(regs', PllBase(channel == 2)) == pll
            && BlockAt(regs', REG_MS_BASE + 8 * channel) == ms
            && (UsesPllB(regs', channel) <==> channel == 2)
            && BlockAt(regs', if channel == 2 then 34 else 26) == pll && BlockAt(regs', 42 + 8 * channel) == ms
  {
    var regs1 := Blit(regs, PllBase(channel == 2), pll, 8);
    forall i | 0 <= i < 8
      ensures Get(Load(regs, channel, pll, ms), PllBase(channel == 2) + i) == pll[i]
      ensures Get(Load(regs, channel, pll, ms), REG_MS_BASE + 8 * channel + i) == ms[i]
    {
      GetBlit(regs, PllBase(channel == 2), pll, 8, PllBase(channel == 2) + i);
      GetBlit(regs1, REG_MS_BASE + 8 * channel, ms, 8, PllBase(channel == 2) + i);
      GetBlit(regs1, REG_MS_BASE + 8 * channel, ms, 8, REG_MS_BASE + 8 * channel + i);
    }
  }

  /** The control register after a load, bit by bit: powered up, integer mode, the PLL, not inverted, fed by the
      channel's own divider, two milliamperes; and the one PLL that the reset register restarts. */
  lemma LoadedControl(regs: Registers, channel: int, pll: seq<int>, ms: seq<int>)
    requires channel in {0, 1, 2} && |pll| == 8 && |ms| == 8
    ensures var regs' := Load(regs, channel, pll, ms);
            var control := 16 + channel;
            && 0 <= Get(regs', control) < 256 && 0 <= Get(regs', 177) < 256
            && !Bit(regs', control, 7) && Bit(regs', control, 6) && (Bit(regs', control, 5) <==> channel == 2)
            && !Bit(regs', control, 4) && Bit(regs', control, 3) && Bit(regs', control, 2)
            && !Bit(regs', control, 1) && !Bit(regs', control, 0)
            && (Bit(regs', 177, 7) <==> channel == 2) && (Bit(regs', 177, 5) <==> channel != 2)
            && (forall k :: 0 <= k < 8 && k != 7 && k != 5 ==> !Bit(regs', 177, k))
  {
    hide Blit;
  }

  /** What a load leaves alone: every register outside its two blocks, the reset and its own control. */
  lemma LoadKeeps(regs: Registers, channel: int, pll: seq<int>, ms: seq<int>, reg: int)
    requires channel in {0, 1, 2} && |pll| == 8 && |ms| == 8
    requires !(PllBase(channel == 2) <= reg < PllBase(channel == 2) + 8)
    requires !(REG_MS_BASE + 8 * channel <= reg < REG_MS_BASE + 8 * channel + 8)
    requires reg != REG_PLL_RESET && reg != REG_CLK_CONTROL_BASE + channel
    ensures Get(Load(regs, channel, pll, ms), reg) == Get(regs, reg)
  {
    GetBlit(regs, PllBase(channel == 2), pll, 8, reg);
    GetBlit(Blit(regs, PllBase(channel == 2), pll, 8), REG_MS_BASE + 8 * channel, ms, 8, reg);
  }

  lemma LoadKeepsBlock(regs: Registers, channel: int, pll: seq<int>, ms: seq<int>, base: int)
    requires channel in {0, 1, 2} && |pll| == 8 && |ms| == 8
    requires base == PllBase(channel != 2)
        || (exists other :: other in {0, 1, 2} && other != channel && base == REG_MS_BASE + 8 * other)
    ensures BlockAt(Load(regs, channel, pll, ms), base) == BlockAt(regs, base)
  {
    var regs' := Load(regs, channel, pll, ms);
    forall i | 0 <= i < 8 ensures BlockAt(regs', base)[i] == BlockAt(regs, base)[i] {
      LoadKeeps(regs, channel, pll, ms, base + i);
    }
  }

  /** Setting a channel leaves the other PLL, and every other channel's divider and PLL choice, alone. */
  lemma LoadKeepsOthers(regs: Registers, channel: int, pll: seq<int>, ms: seq<int>, other: int)
    requires channel in {0, 1, 2} && |pll| == 8 && |ms| == 8 && other in {0, 1, 2} && other != channel
    ensures var regs' := Load(regs, channel, pll, ms);
            && BlockAt(regs', REG_MS_BASE + 8 * other) == BlockAt(regs, REG_MS_BASE + 8 * other)
            && BlockAt(regs', PllBase(channel != 2)) == BlockAt(regs, PllBase(channel != 2))
            && (UsesPllB(regs', other) <==> UsesPllB(regs, other))
  {
    LoadKeeps(regs, channel, pll, ms, REG_CLK_CONTROL_BASE + other);
    LoadKeepsBlock(regs, channel, pll, ms, REG_MS_BASE + 8 * other);
    LoadKeepsBlock(regs, channel, pll, ms, PllBase(channel != 2));
  }

  /** The two blocks of a request decode to its multiplier and its divider. */
  lemma RequestDecodes(freq: real)
    requires InRange(freq)
    ensures Ratio(PllBlock(MultiplierFor(freq))) == MultiplierFor(freq).Value()
    ensures Ratio(Block(BestDivider(freq), 0, 1)) == BestDivider(freq) as real
    ensures BestDivider(freq) >= 8
  {
    hide BestDivider, Solve, Round, Block, Ratio, Vco;
    BestDividerBounds(freq);
    VcoBounds(freq);
    var m := MultiplierFor(freq);
    SolveIsNearest(Vco(freq, BestDivider(freq)));
    BlockDecodes(m.whole, m.num, DENOM);
    BlockDecodes(BestDivider(freq), 0, 1);
  }

  /** The registers of a channel that was just set decode to exactly the frequency reported for it. */
  lemma ProgramDecodes(regs: Registers, channel: int, freq: real)
    requires channel in {0, 1, 2} && InRange(freq)
    ensures Output(Program(regs, channel, freq), channel) == Reported(freq)
  {
    hide BlockAt, Block, Ratio, BestDivider, MultiplierFor, Load, UsesPllB, Multiplier.Value, PllBlock;
    RequestDecodes(freq);
    LoadedBlocks(regs, channel, PllBlock(MultiplierFor(freq)), Block(BestDivider(freq), 0, 1));
  }

  /** Channels 0 and 1 share PLL A.  After one of them was set to `first` and the other to `second`, the
      frequency on record for the first is still what its pin does exactly when both need the same multiplier. */
  lemma SharedPll(regs: Registers, channel: int, first: real, second: real)
    requires channel in {0, 1} && InRange(first) && InRange(second)
    ensures var regs' := Program(Program(regs, channel, first), 1 - channel, second);
            Output(regs', channel) == Reported(first) <==> MultiplierFor(first).Value() == MultiplierFor(second).Value()
  {
    hide BlockAt, Block, Ratio, BestDivider, MultiplierFor, Load, UsesPllB, Multiplier.Value, PllBlock;
    var pll1, ms1 := PllBlock(MultiplierFor(first)), Block(BestDivider(first), 0, 1);
    var pll2, ms2 := PllBlock(MultiplierFor(second)), Block(BestDivider(second), 0, 1);
    RequestDecodes(first);
    RequestDecodes(second);
    var once := Load(regs, channel, pll1, ms1);
    LoadedBlocks(regs, channel, pll1, ms1);
    LoadedBlocks(once, 1 - channel, pll2, ms2);
    LoadKeepsOthers(once, 1 - channel, pll2, ms2, channel);
    var d := BestDivider(first) as real;
    SameQuotient(XTAL_FREQ * MultiplierFor(second).Value(), XTAL_FREQ * MultiplierFor(first).Value(), d);
  }

  lemma SameQuotient(a: real, b: real, d: real)
    requires d > 0.0
    ensures a / d == b / d <==> a == b
  {
    assert a == a / d * d && b == b / d * d;
  }

  /** Channel 2 has PLL B to itself: setting another channel never moves it, nor does it move them. */
  lemma SeparatePll(regs: Registers, channel: int, freq: real, other: int)
    requires channel in {0, 1, 2} && other in {0, 1, 2} && freq > 0.0
    requires UsesPllB(regs, other) <==> other == 2
    requires (channel == 2) != (other == 2)
    ensures Output(Program(regs, channel, freq), other) == Output(regs, other)
  {
    hide BlockAt, Block, Ratio, BestDivider, MultiplierFor, Load, UsesPllB, PllBlock;
    LoadKeepsOthers(regs, channel, PllBlock(MultiplierFor(freq)), Block(BestDivider(freq), 0, 1), other);
  }

  lemma TenMegahertz()
    ensures BestDivider(10_000_000.0) == 90 && MultiplierFor(10_000_000.0) == Multiplier(36, 0)
  {
    assert BestDivider(10_000_000.0) == 90;
    var mult := Vco(10_000_000.0, 90) / XTAL_FREQ;
    assert mult == 36.0 && mult.Floor == 36;
  }

  lemma SevenMegahertz()
    ensures BestDivider(7_000_000.0) == 128 && MultiplierFor(7_000_000.0).Value() < 36.0
  {
    assert BestDivider(7_000_000.0) == 128;
    var vco := Vco(7_000_000.0, 128);
    assert vco == 896_000_000.0;
    SolveIsNearest(vco);
  }

  /** 10 MHz on channel 0 and then 7 MHz on channel 1: channel 0 no longer does what it reported. */
  lemma SharedPllMoves(regs: Registers)
    ensures var regs' := Program(Program(regs, 0, 10_000_000.0), 1, 7_000_000.0);
            Output(regs', 0) != Reported(10_000_000.0)
  {
    hide Program, Output, Reported, BestDivider, MultiplierFor;
    SharedPll(regs, 0, 10_000_000.0, 7_000_000.0);
    TenMegahertz();
    SevenMegahertz();
  }
}
