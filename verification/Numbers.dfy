/** Conversion of binary, octal and hexadecimal literals (`token_spec_number`): two 32-bit limbs,
    shifted and or-ed digit by digit. */
module Numbers {
  import opened Machine

  const BN_SIZE: nat := 2

  /** 2^32. */
  const WORDS: nat := 0x1_0000_0000

  /** The value a digit character has; the caller passes letters and digits only. */
  function Digit(ch: char): Word {
    if 'a' <= ch <= 'f' then ch as int - 'a' as int + 10
    else if 'A' <= ch <= 'F' then ch as int - 'A' as int + 10
    else (ch as int - '0' as int) % WORDS
  }

  /** Bits per digit; other bases leave the default of one. */
  function Shift(b: nat): (s: nat)
    ensures s in {1, 3, 4}
  {
    if b == 16 then 4 else if b == 8 then 3 else 1
  }

  // ----- bit operations on words -----

  function Pow2(n: nat): (p: nat)
    ensures p > 0
  {
    if n == 0 then 1 else 2 * Pow2(n - 1)
  }

  /** The bitwise or of the low `bits` bits. */
  function BitOr(a: nat, b: nat, bits: nat): (r: nat)
    ensures r < Pow2(bits)
  {
    if bits == 0 then 0
    else 2 * BitOr(a / 2, b / 2, bits - 1) + if a % 2 == 1 || b % 2 == 1 then 1 else 0
  }

  lemma PowersOfTwo()
    ensures Pow2(1) == 2 && Pow2(3) == 8 && Pow2(4) == 16 && Pow2(28) == 0x1000_0000
    ensures Pow2(29) == 0x2000_0000 && Pow2(31) == 0x8000_0000 && Pow2(32) == WORDS
  {
    assert Pow2(8) == 0x100;
    assert Pow2(16) == 0x1_0000;
    assert Pow2(24) == 0x100_0000;
  }

  function Or(a: Word, b: Word): Word {
    PowersOfTwo();
    BitOr(a, b, 32)
  }

  function ShiftLeft(v: Word, s: nat): Word {
    v * Pow2(s) % WORDS
  }

  function ShiftRight(v: Word, s: nat): Word
    requires s in {28, 29, 31}
  {
    PowersOfTwo();
    v / Pow2(s)
  }

  // ----- the conversion -----

  /** One limb takes in a digit and gives out the bits shifted off its top. */
  function LimbIn(v: Word, s: nat, t: Word): Word {
    Or(ShiftLeft(v, s), t)
  }

  function LimbOut(v: Word, s: nat): Word
    requires s in {1, 3, 4}
  {
    ShiftRight(v, 32 - s)
  }

  /** The limbs, low one first, after all digits. */
  function Limbs(ds: string, s: nat): (Word, Word)
    requires s in {1, 3, 4}
  {
    if ds == [] then (0, 0)
    else
      var (lo, hi) := Limbs(ds[..|ds| - 1], s);
      (LimbIn(lo, s, Digit(ds[|ds| - 1])), LimbIn(hi, s, LimbOut(lo, s)))
  }

  function SpecNumber(ds: string, b: nat): Word {
    Limbs(ds, Shift(b)).0
  }

  /** `token_spec_number` with its limb array and carry. */
  method TokenSpecNumber(ds: string, b: nat) returns (d: Word)
    ensures d == SpecNumber(ds, b)
  {
    var shift := 1;
    if b == 16 { shift := 4; } else if b == 8 { shift := 3; } else if b == 2 { shift := 1; }
    var bn := new Word[BN_SIZE](_ => 0);
    var i := 0;
    hide LimbIn, LimbOut, Digit;
    while i < |ds|
      invariant 0 <= i <= |ds|
      invariant (bn[0], bn[1]) == Limbs(ds[..i], shift)
    {
      var t := Digit(ds[i]);
      ghost var lo, hi, t0 := bn[0], bn[1], t;
      var j := 0;
      while j < BN_SIZE
        invariant 0 <= j <= BN_SIZE
        invariant j == 0 ==> bn[0] == lo && bn[1] == hi && t == t0
        invariant j == 1 ==> bn[0] == LimbIn(lo, shift, t0) && bn[1] == hi && t == LimbOut(lo, shift)
        invariant j == 2 ==> bn[0] == LimbIn(lo, shift, t0) && bn[1] == LimbIn(hi, shift, LimbOut(lo, shift))
      {
        var v := bn[j];
        bn[j] := LimbIn(v, shift, t);
        t := LimbOut(v, shift);
        j := j + 1;
      }
      assert ds[..i + 1][..i] == ds[..i];
      i := i + 1;
    }
    assert ds[..|ds|] == ds;
    d := bn[0];
  }

  // ----- what digits denote -----

  const LOWER_DIGITS := "0123456789abcdef"
  const UPPER_DIGITS := "0123456789ABCDEF"

  /** `ch` is how the digit `d` is written. */
  predicate WritesDigit(ch: char, d: nat) {
    d < 16 && (ch == LOWER_DIGITS[d] || ch == UPPER_DIGITS[d])
  }

  /** `ds` writes the digits `ns` of a number in base `b`, in letters of either case. */
  predicate Writes(ds: string, ns: seq<nat>, b: nat) {
    |ds| == |ns| && forall i :: 0 <= i < |ns| ==> ns[i] < b && WritesDigit(ds[i], ns[i])
  }

  /** The number with the digits `ns`, the highest first. */
  function Value(ns: seq<nat>, b: nat): nat {
    if ns == [] then 0 else Value(ns[..|ns| - 1], b) * b + ns[|ns| - 1]
  }

  lemma DigitWritten(ch: char, d: nat)
    requires WritesDigit(ch, d)
    ensures Digit(ch) == d
    ensures '0' <= ch <= '9' <==> d < 10
    ensures d < 10 ==> ch == LOWER_DIGITS[d] == UPPER_DIGITS[d]
  {
    if d < 10 {
      assert LOWER_DIGITS[d] as int == '0' as int + d && UPPER_DIGITS[d] as int == '0' as int + d;
    } else {
      assert LOWER_DIGITS[d] as int == 'a' as int + d - 10 && UPPER_DIGITS[d] as int == 'A' as int + d - 10;
    }
  }

  // ----- the limbs hold what the digits denote -----

  lemma {:induction false} OrZero(a: nat, bits: nat)
    requires a < Pow2(bits)
    ensures BitOr(a, 0, bits) == a
    decreases bits
  {
    if bits > 0 {
      OrZero(a / 2, bits - 1);
    }
  }

  /** Or-ing what fits into the zeros at the low end is adding. */
  lemma {:induction false} OrAdds(c: nat, t: nat, s: nat, bits: nat)
    requires c * Pow2(s) < Pow2(bits) && t < Pow2(s) && s <= bits
    ensures BitOr(c * Pow2(s), t, bits) == c * Pow2(s) + t
    decreases s
  {
    if s == 0 {
      OrZero(c, bits);
    } else {
      var a := c * Pow2(s - 1);
      assert c * Pow2(s) == 2 * a;
      OrAdds(c, t / 2, s - 1, bits - 1);
    }
  }

  /** The base, the bits of a digit, and what is left of a word above them. */
  predicate IsBase(b: nat, s: nat, rest: nat) {
    (b == 2 && s == 1 && rest == 0x8000_0000) || (b == 8 && s == 3 && rest == 0x2000_0000)
    || (b == 16 && s == 4 && rest == 0x1000_0000)
  }

  lemma ModIs(x: nat, k: nat, q: nat, r: nat)
    requires k == WORDS || k == WORDS * WORDS
    requires x == k * q + r && r < k
    ensures x % k == r
  {
  }

  /** A word shifted left loses what stands above `rest`. */
  lemma Shifted(v: Word, b: nat, s: nat, rest: nat)
    requires IsBase(b, s, rest)
    ensures v * b % WORDS == v % rest * b && v / rest < b && v == v / rest * rest + v % rest && v % rest < rest
  {
    var q, r := v / rest, v % rest;
    if b == 16 {
      ModIs(v * 16, WORDS, q, r * 16);
    } else if b == 8 {
      ModIs(v * 8, WORDS, q, r * 8);
    } else {
      ModIs(v * 2, WORDS, q, r * 2);
    }
  }

  lemma LimbInAdds(v: Word, t: Word, b: nat, s: nat, rest: nat)
    requires IsBase(b, s, rest) && t < b
    ensures LimbIn(v, s, t) == v % rest * b + t
    ensures LimbOut(v, s) == v / rest < b
  {
    PowersOfTwo();
    Shifted(v, b, s, rest);
    OrAdds(v % rest, t, s, 32);
  }

  lemma JoinStep(lo: Word, hi: Word, t: nat, b: nat, s: nat, rest: nat)
    requires IsBase(b, s, rest) && t < b
    ensures lo % rest * b + t + WORDS * (hi % rest * b + lo / rest) == ((lo + WORDS * hi) * b + t) % (WORDS * WORDS)
  {
    Shifted(lo, b, s, rest);
    Shifted(hi, b, s, rest);
    var q, r, q2, r2 := lo / rest, lo % rest, hi / rest, hi % rest;
    if b == 16 {
      ModIs((lo + WORDS * hi) * 16 + t, WORDS * WORDS, q2, r * 16 + t + WORDS * (r2 * 16 + q));
    } else if b == 8 {
      ModIs((lo + WORDS * hi) * 8 + t, WORDS * WORDS, q2, r * 8 + t + WORDS * (r2 * 8 + q));
    } else {
      ModIs((lo + WORDS * hi) * 2 + t, WORDS * WORDS, q2, r * 2 + t + WORDS * (r2 * 2 + q));
    }
  }

  /** For digits of base 2, 8 or 16, however many: the two limbs together hold the number they denote modulo
      2^64. */
  lemma {:induction false} LimbsExact(ds: string, ns: seq<nat>, b: nat)
    requires b in {2, 8, 16} && Writes(ds, ns, b)
    ensures var (lo, hi) := Limbs(ds, Shift(b)); lo + WORDS * hi == Value(ns, b) % (WORDS * WORDS)
    decreases |ds|
  {
    hide LimbIn, LimbOut, Digit, WritesDigit;
    if ds != [] {
      var n := |ds| - 1;
      var s, rest := Shift(b), if b == 16 then 0x1000_0000 else if b == 8 then 0x2000_0000 else 0x8000_0000;
      LimbsExact(ds[..n], ns[..n], b);
      var (lo, hi) := Limbs(ds[..n], s);
      DigitWritten(ds[n], ns[n]);
      LimbInAdds(lo, ns[n], b, s, rest);
      LimbInAdds(hi, LimbOut(lo, s), b, s, rest);
      JoinStep(lo, hi, ns[n], b, s, rest);
      ModuloStep(Value(ns[..n], b), b, ns[n]);
    }
  }

  lemma ModPlus(q: nat, y: nat)
    ensures (WORDS * WORDS * q + y) % (WORDS * WORDS) == y % (WORDS * WORDS)
  {
    var k := WORDS * WORDS;
    ModIs(k * q + y, k, q + y / k, y % k);
  }

  lemma ModuloStep(x: nat, b: nat, t: nat)
    requires b in {2, 8, 16}
    ensures (x % (WORDS * WORDS) * b + t) % (WORDS * WORDS) == (x * b + t) % (WORDS * WORDS)
  {
    var k := WORDS * WORDS;
    var q, r := x / k, x % k;
    assert x == k * q + r;
    if b == 2 {
      ModPlus(q * 2, r * 2 + t);
    } else if b == 8 {
      ModPlus(q * 8, r * 8 + t);
    } else {
      ModPlus(q * 16, r * 16 + t);
    }
  }

  /** The result is the low 32 bits of the number written. */
  lemma SpecNumberExact(ds: string, ns: seq<nat>, b: nat)
    requires b in {2, 8, 16} && Writes(ds, ns, b)
    ensures SpecNumber(ds, b) == Value(ns, b) % WORDS
  {
    LimbsExact(ds, ns, b);
    hide Limbs;
    var (lo, hi) := Limbs(ds, Shift(b));
    LowOfJoin(lo, hi, Value(ns, b));
  }

  lemma LowOfJoin(lo: Word, hi: Word, v: nat)
    requires lo + WORDS * hi == v % (WORDS * WORDS)
    ensures lo == v % WORDS
  {
  }

  // ----- every number can be written -----

  /** The digits of `v`, without leading zeros. */
  function DigitsOf(v: nat, b: nat): (ns: seq<nat>)
    requires b >= 2
    ensures forall i :: 0 <= i < |ns| ==> ns[i] < b
    ensures ns != [] ==> ns[0] > 0
    ensures v > 0 ==> ns != []
  {
    if v == 0 then [] else DigitsOf(v / b, b) + [v % b]
  }

  function Written(ns: seq<nat>, upper: bool): (ds: string)
    requires forall i :: 0 <= i < |ns| ==> ns[i] < 16
    ensures Writes(ds, ns, 16)
  {
    seq(|ns|, i requires 0 <= i < |ns| => if upper then UPPER_DIGITS[ns[i]] else LOWER_DIGITS[ns[i]])
  }

  lemma LastDigit(v: nat, b: nat)
    requires b in {2, 8, 10, 16}
    ensures v / b * b + v % b == v && (v > 0 ==> v / b < v)
  {
    if b == 2 {
    } else if b == 8 {
    } else if b == 10 {
    }
  }

  lemma Snoc(ns: seq<nat>, d: nat, b: nat)
    ensures Value(ns + [d], b) == Value(ns, b) * b + d
  {
    assert (ns + [d])[..|ns|] == ns;
  }

  lemma {:induction false} ValueOfDigits(v: nat, b: nat)
    requires b in {2, 8, 10, 16}
    ensures Value(DigitsOf(v, b), b) == v
    decreases v
  {
    hide DigitsOf, Value;
    if v == 0 {
      NoDigits(b);
    } else {
      var q, d := v / b, v % b;
      LastDigit(v, b);
      ValueOfDigits(q, b);
      MoreDigits(v, b);
      Snoc(DigitsOf(q, b), d, b);
    }
  }

  lemma NoDigits(b: nat)
    requires b >= 2
    ensures DigitsOf(0, b) == [] && Value([], b) == 0
  {
  }

  lemma MoreDigits(v: nat, b: nat)
    requires b >= 2 && v > 0
    ensures DigitsOf(v, b) == DigitsOf(v / b, b) + [v % b]
  {
  }

  /** Writing a word in base 2, 8 or 16, in small or capital letters, and converting it gives it back. */
  lemma SpecNumberBack(v: Word, b: nat, upper: bool)
    requires b in {2, 8, 16}
    ensures SpecNumber(Written(DigitsOf(v, b), upper), b) == v
  {
    hide SpecNumber, DigitsOf, Value, Written;
    ValueOfDigits(v, b);
    SpecNumberExact(Written(DigitsOf(v, b), upper), DigitsOf(v, b), b);
  }
}
