/** The packed form of the latch word: three flag bits above a counter of 61 bits. Packing loses nothing,
    and the masks of smart_cell.rs act on the packed word as the operations of `Latch` act on the fields. */
module LatchBits {
  import opened Latch

  const OBSOLETE: bv64 := 0x8000_0000_0000_0000
  const WRITE: bv64 := 0x4000_0000_0000_0000
  const PIN: bv64 := 0x2000_0000_0000_0000
  const WRITE_OBSOLETE: bv64 := 0xC000_0000_0000_0000
  const FLAGS: bv64 := 0xE000_0000_0000_0000

  /** The binary digits of a number. */
  function Digits(n: nat): bv64 {
    if n == 0 then 0 else Append(Digits(n / 2), n % 2 == 1)
  }

  function Append(x: bv64, digit: bool): bv64 {
    (x << 1) | if digit then 1 else 0
  }

  function FlagBits(obsolete: bool, write: bool, pin: bool): bv64 {
    if obsolete then
      if write then if pin then 0xE000_0000_0000_0000 else 0xC000_0000_0000_0000
      else if pin then 0xA000_0000_0000_0000 else 0x8000_0000_0000_0000
    else
      if write then if pin then 0x6000_0000_0000_0000 else 0x4000_0000_0000_0000
      else if pin then 0x2000_0000_0000_0000 else 0
  }

  function Or(x: bv64, y: bv64): bv64 {
    x | y
  }

  function And(x: bv64, y: bv64): bv64 {
    x & y
  }

  function Xor(x: bv64, y: bv64): bv64 {
    x ^ y
  }

  function Pack(w: Word): bv64
    requires w.counter < LIMIT
  {
    Or(FlagBits(w.obsolete, w.write, w.pin), Digits(w.counter))
  }

  // ----- digits -----------------------------------------------------------------------------

  /** The lowest `k` bits. */
  function Low(k: nat): bv64 {
    if k == 0 then 0 else Append(Low(k - 1), true)
  }

  function Power(k: nat): nat {
    if k == 0 then 1 else 2 * Power(k - 1)
  }

  lemma {:induction false} DigitsFit(n: nat, k: nat)
    requires n < Power(k) && k <= 61
    ensures Digits(n) & !Low(k) == 0
  {
    hide Append;
    if k == 0 || n == 0 {
      NothingFits(Low(k));
    } else {
      DigitsFit(n / 2, k - 1);
      AppendFits(Digits(n / 2), n % 2 == 1, Low(k - 1));
    }
  }

  lemma {:induction false} NothingFits(low: bv64)
    ensures 0 & !low == 0
  {
  }

  lemma {:induction false} AppendFits(x: bv64, digit: bool, low: bv64)
    requires x & !low == 0
    ensures Append(x, digit) & !Append(low, true) == 0
  {
  }

  lemma {:induction false} PowerSixteen(k: nat)
    ensures Power(k + 16) == 65536 * Power(k)
  {
    PowerFour(k);
    PowerFour(k + 4);
    PowerFour(k + 8);
    PowerFour(k + 12);
  }

  lemma {:induction false} PowerFour(k: nat)
    ensures Power(k + 4) == 16 * Power(k)
  {
    assert Power(k + 2) == 4 * Power(k) && Power(k + 4) == 4 * Power(k + 2);
  }

  lemma {:induction false} LimitIsPower()
    ensures Power(61) == LIMIT
  {
    PowerSixteen(0);
    PowerSixteen(16);
    PowerSixteen(32);
    PowerFour(48);
    PowerFour(52);
    PowerFour(56);
    assert Power(61) == 2 * Power(60);
  }

  function FourOnes(x: bv64): bv64 {
    (x << 4) | 0xF
  }

  function SixteenOnes(x: bv64): bv64 {
    (x << 16) | 0xFFFF
  }

  lemma {:induction false} LowNext(k: nat)
    ensures Low(k + 1) == Append(Low(k), true)
  {
    hide Append;
  }

  lemma {:induction false} LowFour(k: nat)
    ensures Low(k + 4) == FourOnes(Low(k))
  {
    hide Low, Append, FourOnes;
    LowNext(k);
    LowNext(k + 1);
    LowNext(k + 2);
    LowNext(k + 3);
    FourAppended(Low(k));
  }

  lemma {:induction false} FourAppended(x: bv64)
    ensures Append(Append(Append(Append(x, true), true), true), true) == FourOnes(x)
  {
  }

  lemma {:induction false} LowSixteen(k: nat)
    ensures Low(k + 16) == SixteenOnes(Low(k))
  {
    hide Low, FourOnes, SixteenOnes;
    LowFour(k);
    LowFour(k + 4);
    LowFour(k + 8);
    LowFour(k + 12);
    FourFours(Low(k));
  }

  lemma {:induction false} FourFours(x: bv64)
    ensures FourOnes(FourOnes(FourOnes(FourOnes(x)))) == SixteenOnes(x)
  {
  }

  lemma {:induction false} LowIsBelowFlags()
    ensures !Low(61) == FLAGS
  {
    assert Low(0) == 0;
    hide Low, Append, FourOnes, SixteenOnes;
    LowSixteen(0);
    LowSixteen(16);
    LowSixteen(32);
    LowFour(48);
    LowFour(52);
    LowFour(56);
    LowNext(60);
    SixtyOne();
  }

  lemma {:induction false} SixtyOne()
    ensures !Append(FourOnes(FourOnes(FourOnes(SixteenOnes(SixteenOnes(SixteenOnes(0)))))), true) == FLAGS
  {
  }

  lemma {:induction false} DigitsBelowFlags(n: nat)
    requires n < LIMIT
    ensures Digits(n) & FLAGS == 0
  {
    LimitIsPower();
    LowIsBelowFlags();
    DigitsFit(n, 61);
  }

  /** Different numbers below the flags have different digits. */
  lemma {:induction false} DigitsDiffer(n: nat, m: nat, k: nat)
    requires n < Power(k) && m < Power(k) && k <= 61 && Digits(n) == Digits(m)
    ensures n == m
  {
    if k > 0 {
      AppendZero();
      assert Digits(n) == Append(Digits(n / 2), n % 2 == 1) && Digits(m) == Append(Digits(m / 2), m % 2 == 1);
      HalvesFit(n / 2, k - 1);
      HalvesFit(m / 2, k - 1);
      AppendDiffers(Digits(n / 2), n % 2 == 1, Digits(m / 2), m % 2 == 1);
      DigitsDiffer(n / 2, m / 2, k - 1);
    }
  }

  lemma {:induction false} AppendZero()
    ensures Append(0, false) == 0
  {
  }

  lemma {:induction false} HalvesFit(n: nat, k: nat)
    requires n < Power(k) && k <= 60
    ensures Digits(n) & 0x8000_0000_0000_0000 == 0
  {
    PowerGrows(k, 61);
    LimitIsPower();
    DigitsBelowFlags(n);
    TopIsFlag(Digits(n));
  }

  lemma {:induction false} TopIsFlag(x: bv64)
    requires x & FLAGS == 0
    ensures x & 0x8000_0000_0000_0000 == 0
  {
  }

  lemma {:induction false} PowerGrows(k: nat, m: nat)
    requires k <= m
    ensures Power(k) <= Power(m)
  {
    if k < m { PowerGrows(k, m - 1); }
  }

  lemma {:induction false} AppendDiffers(x: bv64, c: bool, y: bv64, d: bool)
    requires x & 0x8000_0000_0000_0000 == 0 && y & 0x8000_0000_0000_0000 == 0
    requires Append(x, c) == Append(y, d)
    ensures x == y && c == d
  {
  }

  lemma {:induction false} LastDigit(n: nat)
    ensures Digits(n) == Append(Digits(n / 2), n % 2 == 1)
  {
    AppendZero();
  }

  /** Counting up is adding one to the digits. */
  lemma {:induction false} DigitsCount(n: nat)
    ensures Digits(n + 1) == Digits(n) + 1
  {
    LastDigit(n);
    LastDigit(n + 1);
    AppendCounts(Digits(n / 2));
    hide Append, Digits;
    if n % 2 == 0 {
      assert (n + 1) / 2 == n / 2;
    } else {
      DigitsCount(n / 2);
      assert (n + 1) / 2 == n / 2 + 1;
    }
  }

  lemma {:induction false} AppendCounts(x: bv64)
    ensures Append(x, true) == Append(x, false) + 1
    ensures Append(x + 1, false) == Append(x, true) + 1
  {
  }

  // ----- packed words -----------------------------------------------------------------------

  /** `f` holds nothing but flags, `x` nothing but digits. */
  predicate FlagsAndDigits(f: bv64, x: bv64) {
    f & FLAGS == f && x & FLAGS == 0
  }

  lemma {:induction false} FlagBitsAreFlags(o: bool, w: bool, p: bool)
    ensures And(FlagBits(o, w, p), FLAGS) == FlagBits(o, w, p)
    ensures And(FlagBits(o, w, p), WRITE_OBSOLETE) == 0 <==> !o && !w
    ensures And(FlagBits(o, w, p), PIN) == 0 <==> !p
    ensures And(FlagBits(o, w, p), !PIN) == FlagBits(o, w, false)
    ensures Or(FlagBits(o, w, p), PIN) == FlagBits(o, w, true)
    ensures Xor(FlagBits(o, w, p), PIN) == FlagBits(o, w, !p)
    ensures Or(WRITE, FlagBits(o, w, p)) == FlagBits(o, true, p)
    ensures Xor(FlagBits(o, w, p), WRITE) == FlagBits(o, !w, p)
  {
    if o {
      if w { if p {} else {} } else { if p {} else {} }
    } else {
      if w { if p {} else {} } else { if p {} else {} }
    }
  }

  lemma {:induction false} FlagBitsDiffer(o: bool, w: bool, p: bool, o': bool, w': bool, p': bool)
    requires FlagBits(o, w, p) == FlagBits(o', w', p')
    ensures o == o' && w == w' && p == p'
  {
  }

  lemma {:induction false} PartsSeparate(w: Word)
    requires w.counter < LIMIT
    ensures FlagsAndDigits(FlagBits(w.obsolete, w.write, w.pin), Digits(w.counter))
  {
    hide Digits, FlagBits;
    FlagBitsAreFlags(w.obsolete, w.write, w.pin);
    DigitsBelowFlags(w.counter);
  }

  /** Flags and digits can be read off a packed word. */
  lemma {:induction false} Parts(f: bv64, x: bv64)
    requires FlagsAndDigits(f, x)
    ensures And(Or(f, x), FLAGS) == f && And(Or(f, x), !FLAGS) == x
  {
  }

  /** A compare-and-swap that compares packed words compares every field. */
  lemma {:induction false} PackInjective(a: Word, b: Word)
    requires a.counter < LIMIT && b.counter < LIMIT && Pack(a) == Pack(b)
    ensures a == b
  {
    hide FlagBits, Digits, Or, And, FlagsAndDigits;
    PartsSeparate(a);
    PartsSeparate(b);
    Parts(FlagBits(a.obsolete, a.write, a.pin), Digits(a.counter));
    Parts(FlagBits(b.obsolete, b.write, b.pin), Digits(b.counter));
    FlagBitsDiffer(a.obsolete, a.write, a.pin, b.obsolete, b.write, b.pin);
    LimitIsPower();
    DigitsDiffer(a.counter, b.counter, 61);
  }

  lemma {:induction false} TestsSpareDigits(f: bv64, x: bv64)
    requires FlagsAndDigits(f, x)
    ensures And(Or(f, x), WRITE_OBSOLETE) == And(f, WRITE_OBSOLETE) && And(Or(f, x), PIN) == And(f, PIN)
  {
  }

  lemma {:induction false} ClearSparesDigits(f: bv64, x: bv64)
    requires FlagsAndDigits(f, x)
    ensures And(Or(f, x), !PIN) == Or(And(f, !PIN), x)
  {
  }

  lemma {:induction false} FlipSparesDigits(f: bv64, x: bv64)
    requires FlagsAndDigits(f, x)
    ensures Xor(Or(f, x), PIN) == Or(Xor(f, PIN), x)
  {
  }

  lemma {:induction false} SetSparesDigits(f: bv64, x: bv64)
    ensures Or(Or(f, x), PIN) == Or(Or(f, PIN), x)
    ensures Or(WRITE, Or(f, x)) == Or(Or(WRITE, f), x)
  {
  }

  lemma {:induction false} PackedObsolete()
    ensures Pack(OBSOLETE_WORD) == OBSOLETE
  {
  }

  /** The tests and masks of the source on the packed word are the operations on the fields. */
  lemma {:induction false} PackedOperations(w: Word)
    requires w.counter < LIMIT
    ensures Readable(w) <==> And(Pack(w), WRITE_OBSOLETE) == 0
    ensures MayPin(w) <==> And(Pack(w), PIN) == 0 && And(Pack(w), WRITE_OBSOLETE) == 0
    ensures Pack(Unpinned(w)) == And(Pack(w), !PIN)
    ensures Pack(WithPin(w)) == Or(Pack(w), PIN)
    ensures Pack(TogglePin(w)) == Xor(Pack(w), PIN)
    ensures Pack(WithWrite(w)) == Or(WRITE, Pack(w))
    ensures Pack(OBSOLETE_WORD) == OBSOLETE
  {
    PackedObsolete();
    hide Digits, FlagBits, And, Or, Xor, FlagsAndDigits;
    PartsSeparate(w);
    FlagBitsAreFlags(w.obsolete, w.write, w.pin);
    var f, x := FlagBits(w.obsolete, w.write, w.pin), Digits(w.counter);
    TestsSpareDigits(f, x);
    ClearSparesDigits(f, x);
    FlipSparesDigits(f, x);
    SetSparesDigits(f, x);
  }

  function Plus(x: bv64, y: bv64): bv64 {
    x + y
  }

  lemma {:induction false} DigitsPlus(n: nat)
    ensures Digits(n + 1) == Plus(Digits(n), 1)
  {
    hide Digits;
    DigitsCount(n);
  }

  lemma {:induction false} CountsBelowFlags(f: bv64, x: bv64)
    requires FlagsAndDigits(f, x) && FlagsAndDigits(f, Plus(x, 1))
    ensures Xor(Plus(Or(f, x), 1), WRITE) == Or(Xor(f, WRITE), Plus(x, 1))
  {
  }

  /** The store that ends a write section counts up and clears the flag, while the counter has room. */
  lemma {:induction false} PackedWriteDone(w: Word)
    requires w.counter + 1 < LIMIT
    ensures Pack(WriteDone(w)) == Xor(Plus(Pack(w), 1), WRITE)
  {
    hide Digits, FlagBits, And, Or, Xor, Plus, FlagsAndDigits;
    DigitsPlus(w.counter);
    PartsSeparate(w);
    PartsSeparate(w.(counter := w.counter + 1));
    FlagBitsAreFlags(w.obsolete, w.write, w.pin);
    CountsBelowFlags(FlagBits(w.obsolete, w.write, w.pin), Digits(w.counter));
  }

  /** Without room it does not: the counter runs over into the pin flag. */
  lemma {:induction false} LastCounterPins()
    ensures Xor(Plus(Pack(WithWrite(Counted(LIMIT - 1))), 1), WRITE) == PIN
  {
    LimitIsPower();
    LowIsBelowFlags();
    DigitsOfLast(61);
    hide Digits, Low, Power;
    LastPlusOne(Digits(LIMIT - 1));
  }

  lemma {:induction false} DigitsOfLast(k: nat)
    ensures Power(k) > 0 && Digits(Power(k) - 1) == Low(k)
  {
    if k > 0 {
      DigitsOfLast(k - 1);
      assert (Power(k) - 1) / 2 == Power(k - 1) - 1;
    }
  }

  lemma {:induction false} LastPlusOne(x: bv64)
    requires !x == FLAGS
    ensures ((WRITE | x) + 1) ^ WRITE == PIN
  {
  }
}
