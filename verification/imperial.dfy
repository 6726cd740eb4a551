/** The integer tail of the imperial branch of `format_distance`: once a length has
    been split into whole feet, whole inches and a fraction `frac / base` of an inch
    (`base` a power of two, the chosen precision), the fraction is put in lowest
    terms or rounded up into a whole inch, twelve inches are carried into a foot, and
    the text `F' - I N/D"` is assembled. */
module Imperial {
  import opened Decimal

  predicate IsPowerOfTwo(n: int)
    decreases if n > 0 then n else 0
  {
    n == 1 || (n > 1 && n % 2 == 0 && IsPowerOfTwo(n / 2))
  }

  function Pow2(k: nat): (p: nat)
    ensures p >= 1
  {
    if k == 0 then 1 else 2 * Pow2(k - 1)
  }

  /** `int(math.log2(n))`, exact for a power of two. */
  function Log2(n: int): (k: nat)
    requires IsPowerOfTwo(n)
    ensures Pow2(k) == n
    decreases if n > 0 then n else 0
  {
    if n == 1 then 0 else 1 + Log2(n / 2)
  }

  /** f / b is frac / base in lowest terms with a power-of-two denominator: the same
      ratio, b a power of two dividing base, and f odd unless b is 1. */
  predicate ReducedForm(frac: int, base: int, f: int, b: int) {
    IsPowerOfTwo(b) && b <= base && base % b == 0 && f * base == frac * b && (f % 2 != 0 || b == 1)
  }

  /** Lines 152-159, the `frac != base` branch: halve numerator and denominator
      together while the numerator is even, at most log2(base) times. */
  method ReduceFraction(frac: int, base: int) returns (f: int, b: int)
    requires IsPowerOfTwo(base)
    ensures ReducedForm(frac, base, f, b)
  {
    f, b := frac, base;
    var numcycles := Log2(base);
    for i := 0 to numcycles
      invariant IsPowerOfTwo(b) && Log2(b) == numcycles - i && b <= base
      invariant f * base == frac * b
    {
      if f % 2 == 0 {
        HalveRatio(f, b, frac, base);
        f := f / 2;
        b := b / 2;
      } else {
        break;
      }
    }
    if f % 2 == 0 {
      assert b == Pow2(Log2(b));
    }
    PowerOfTwoDivides(b, base);
  }

  /** A power of two divides every power of two at least as large. */
  lemma PowerOfTwoDivides(b: int, base: int)
    requires IsPowerOfTwo(b) && IsPowerOfTwo(base) && b <= base
    ensures base % b == 0
  {
    var k, n := Log2(b), Log2(base);
    if n < k {
      Pow2Monotone(n + 1, k);
    }
    Pow2Add(k, n - k);
    MultipleMod(b, Pow2(n - k));
  }

  lemma MultipleMod(b: int, p: int)
    requires b > 0
    ensures (b * p) % b == 0
  {
    var q, r := (b * p) / b, (b * p) % b;
    assert b * (p - q) == r by {
      assert b * p == b * q + r;
    }
    if p - q >= 1 {
      MulAtLeast(b, p - q);
    } else if p - q <= -1 {
      MulAtLeast(b, q - p);
    }
  }

  lemma MulAtLeast(b: int, m: int)
    requires b > 0 && m >= 1
    ensures b * m >= b && b * -m <= -b
  {
  }

  /** Halving an even numerator and an even denominator together keeps the ratio. */
  lemma HalveRatio(f: int, b: int, frac: int, base: int)
    requires f % 2 == 0 && IsPowerOfTwo(b) && b > 1 && f * base == frac * b
    ensures IsPowerOfTwo(b / 2) && (f / 2) * base == frac * (b / 2)
  {
    var h, c := f / 2, b / 2;
    assert f == 2 * h && b == 2 * c;
    MulAssoc(2, h, base);
    MulAssoc(frac, 2, c);
    assert (h * base) * 2 == (frac * c) * 2;
    CancelPositive(h * base, frac * c, 2);
  }

  /** The reduced form is unique: the ensures of ReduceFraction determine its result. */
  lemma ReducedFormUnique(frac: int, base: int, f1: int, b1: int, f2: int, b2: int)
    requires IsPowerOfTwo(base)
    requires ReducedForm(frac, base, f1, b1) && ReducedForm(frac, base, f2, b2)
    ensures f1 == f2 && b1 == b2
  {
    if b1 < b2 {
      SmallerPowerDivides(f1, b1, f2, b2, frac, base);
    } else if b2 < b1 {
      SmallerPowerDivides(f2, b2, f1, b1, frac, base);
    } else {
      PowerOfTwoPositive(base);
      assert f1 * base == f2 * base;
      CancelPositive(f1, f2, base);
    }
  }

  /** Against a smaller power-of-two denominator, the numerator of the same ratio
      over the larger one is even, so the larger one is not in lowest terms. */
  lemma SmallerPowerDivides(f1: int, b1: int, f2: int, b2: int, frac: int, base: int)
    requires IsPowerOfTwo(base) && IsPowerOfTwo(b1) && IsPowerOfTwo(b2) && b1 < b2
    requires f1 * base == frac * b1 && f2 * base == frac * b2
    ensures f2 % 2 == 0 && b2 != 1
  {
    var k1, k2 := Log2(b1), Log2(b2);
    if k2 <= k1 {
      Pow2Monotone(k2, k1);
    }
    var m := k2 - k1;
    Pow2Add(k1, m);
    PowerOfTwoPositive(base);
    SameRatioScaled(f1, b1, f2, Pow2(m), frac, base);
    Pow2Even(f1, m);
  }

  /** If b2 is b1 scaled by p, the numerator of the same ratio over b2 is f1 scaled
      by p. */
  lemma SameRatioScaled(f1: int, b1: int, f2: int, p: int, frac: int, base: int)
    requires base > 0 && f1 * base == frac * b1 && f2 * base == frac * (b1 * p)
    ensures f2 == f1 * p
  {
    calc {
      f2 * base;
      frac * (b1 * p);
      { MulAssoc(frac, b1, p); }
      (frac * b1) * p;
      (f1 * base) * p;
      { MulSwap(f1, base, p); }
      (f1 * p) * base;
    }
    CancelPositive(f2, f1 * p, base);
  }

  /** A multiple of a positive power of two is even. */
  lemma Pow2Even(f: int, m: nat)
    requires m > 0
    ensures (f * Pow2(m)) % 2 == 0
  {
    var q := Pow2(m - 1);
    MulAssoc(f, 2, q);
    MulSwap(f, 2, q);
    assert f * Pow2(m) == 2 * (f * q);
  }

  lemma MulAssoc(a: int, b: int, c: int)
    ensures a * (b * c) == (a * b) * c
  {
  }

  lemma MulSwap(a: int, b: int, c: int)
    ensures (a * b) * c == (a * c) * b
  {
  }

  lemma PowerOfTwoPositive(n: int)
    requires IsPowerOfTwo(n)
    ensures n >= 1
  {
    assert Pow2(Log2(n)) == n;
  }

  lemma CancelPositive(a: int, b: int, c: int)
    requires c > 0 && a * c == b * c
    ensures a == b
  {
  }

  lemma {:induction false} Pow2Add(k: nat, m: nat)
    ensures Pow2(k + m) == Pow2(k) * Pow2(m)
  {
    if m > 0 {
      Pow2Add(k, m - 1);
      assert Pow2(k + m) == 2 * Pow2(k + m - 1);
    }
  }

  lemma {:induction false} Pow2Monotone(j: nat, k: nat)
    requires j <= k
    ensures Pow2(j) <= Pow2(k)
  {
    if j < k {
      Pow2Monotone(j, k - 1);
    }
  }

  // ---------------------------------------------------------------------------
  // Rounding up, carrying and composing the text

  /** Lines 152-162: a fraction equal to a whole inch becomes one more inch with no
      fraction; any other fraction is reduced to lowest terms. */
  method ProperFraction(inches: int, frac: int, base: int) returns (inches': int, frac': int, base': int)
    requires IsPowerOfTwo(base)
    ensures frac == base ==> inches' == inches + 1 && frac' == 0 && base' == base
    ensures frac != base ==> inches' == inches && ReducedForm(frac, base, frac', base')
    ensures frac' != base'
  {
    if frac != base {
      inches' := inches;
      frac', base' := ReduceFraction(frac, base);
      if frac' == base' {
        PowerOfTwoPositive(base');
        CancelPositive(base, frac, base');
      }
    } else {
      inches', frac', base' := inches + 1, 0, base;
    }
  }

  /** Which marks the text of a distance holds: a foot mark exactly when there are
      feet, a slash exactly when there is a fraction, an inch mark exactly when there
      are inches or a fraction, and a space exactly when inches stand next to feet or
      to a fraction; the text is empty exactly when every part is zero. */
  predicate ShowsMarks(tx: string, feet: int, inches: int, frac: int) {
    (tx == "" <==> feet == 0 && inches == 0 && frac == 0) &&
    ('\'' in tx <==> feet != 0) &&
    ('/' in tx <==> frac != 0) &&
    ('"' in tx <==> inches != 0 || frac != 0) &&
    (' ' in tx <==> inches != 0 && (feet != 0 || frac != 0))
  }

  /** The whole text for each combination of nonzero parts, given the decimal text
      of feet, inches, numerator and denominator: the feet with a foot mark, then
      " - " only when inches follow the feet, the inches, a space only between inches
      and a fraction, the fraction, and an inch mark after inches or a fraction. */
  predicate ShowsNumbers(tx: string, ft: string, ins: string, num: string, den: string, feet: int, inches: int, frac: int) {
    var fraction := num + "/" + den;
    (feet == 0 && inches == 0 && frac == 0 ==> tx == "") &&
    (feet != 0 && inches == 0 && frac == 0 ==> tx == ft + "'") &&
    (feet == 0 && inches != 0 && frac == 0 ==> tx == ins + "\"") &&
    (feet == 0 && inches == 0 && frac != 0 ==> tx == fraction + "\"") &&
    (feet != 0 && inches != 0 && frac == 0 ==> tx == ft + "' - " + ins + "\"") &&
    (feet != 0 && inches == 0 && frac != 0 ==> tx == ft + "'" + fraction + "\"") &&
    (feet == 0 && inches != 0 && frac != 0 ==> tx == ins + " " + fraction + "\"") &&
    (feet != 0 && inches != 0 && frac != 0 ==> tx == ft + "' - " + ins + " " + fraction + "\"")
  }

  /** What the text of a distance shows of its parts. */
  predicate Describes(tx: string, feet: int, inches: int, frac: int, base: int) {
    ShowsMarks(tx, feet, inches, frac) &&
    ShowsNumbers(tx, IntToString(feet), IntToString(inches), IntToString(frac), IntToString(base), feet, inches, frac)
  }

  /** Lines 169-182: the text, built piece by piece; each piece is shown when its
      part is nonzero, as Python's truth test of an `int` decides. */
  method ComposeImperial(feet: int, inches: int, frac: int, base: int) returns (tx: string)
    ensures Describes(tx, feet, inches, frac, base)
  {
    tx := "";
    if feet != 0 {
      tx := tx + (IntToString(feet) + "'");
    }
    ghost var t := Piece(feet != 0, IntToString(feet) + "'");
    assert tx == t;
    if feet != 0 && inches != 0 {
      tx := tx + " - ";
    }
    t := t + Piece(feet != 0 && inches != 0, " - ");
    assert tx == t;
    if inches != 0 {
      tx := tx + IntToString(inches);
    }
    t := t + Piece(inches != 0, IntToString(inches));
    assert tx == t;
    if inches != 0 && frac != 0 {
      tx := tx + " ";
    }
    t := t + Piece(inches != 0 && frac != 0, " ");
    assert tx == t;
    if frac != 0 {
      tx := tx + (IntToString(frac) + "/" + IntToString(base));
    }
    t := t + Piece(frac != 0, IntToString(frac) + "/" + IntToString(base));
    assert tx == t;
    if inches != 0 || frac != 0 {
      tx := tx + "\"";
    }
    t := t + Piece(inches != 0 || frac != 0, "\"");
    assert tx == t;
    NoMarks(feet);
    NoMarks(inches);
    NoMarks(frac);
    NoMarks(base);
    LayoutShowsMarks(IntToString(feet), IntToString(inches), IntToString(frac), IntToString(base), feet, inches, frac);
    LayoutShowsNumbers(IntToString(feet), IntToString(inches), IntToString(frac), IntToString(base), feet, inches, frac);
  }

  /** A piece of the text, present only when shown. */
  function Piece(shown: bool, s: string): string {
    if shown then s else ""
  }

  /** The six pieces of the text in order, around the given decimal text. */
  function Layout(ft: string, ins: string, num: string, den: string, feet: int, inches: int, frac: int): string {
    Piece(feet != 0, ft + "'") + Piece(feet != 0 && inches != 0, " - ")
    + Piece(inches != 0, ins) + Piece(inches != 0 && frac != 0, " ")
    + Piece(frac != 0, num + "/" + den) + Piece(inches != 0 || frac != 0, "\"")
  }

  /** Text that is not empty and holds none of the marks placed around numbers. */
  predicate Numeral(s: string) {
    |s| > 0 && '\'' !in s && '/' !in s && '"' !in s && ' ' !in s
  }

  /** The decimal text of an integer is a numeral. */
  lemma NoMarks(i: int)
    ensures Numeral(IntToString(i))
  {
  }

  lemma LayoutShowsMarks(ft: string, ins: string, num: string, den: string, feet: int, inches: int, frac: int)
    requires Numeral(ft) && Numeral(ins) && Numeral(num) && Numeral(den)
    ensures ShowsMarks(Layout(ft, ins, num, den, feet, inches, frac), feet, inches, frac)
  {
    LayoutEmpty(ft, ins, num, den, feet, inches, frac);
    FootMark(ft, ins, num, den, feet, inches, frac);
    Slash(ft, ins, num, den, feet, inches, frac);
    InchMark(ft, ins, num, den, feet, inches, frac);
    Space(ft, ins, num, den, feet, inches, frac);
  }

  /** The text is empty exactly when no piece is shown. */
  lemma LayoutEmpty(ft: string, ins: string, num: string, den: string, feet: int, inches: int, frac: int)
    requires |ins| > 0
    ensures Layout(ft, ins, num, den, feet, inches, frac) == "" <==> feet == 0 && inches == 0 && frac == 0
  {
    assert |Layout(ft, ins, num, den, feet, inches, frac)| == |Piece(feet != 0, ft + "'")| + |Piece(feet != 0 && inches != 0, " - ")|
      + |Piece(inches != 0, ins)| + |Piece(inches != 0 && frac != 0, " ")|
      + |Piece(frac != 0, num + "/" + den)| + |Piece(inches != 0 || frac != 0, "\"")|;
  }

  lemma FootMark(ft: string, ins: string, num: string, den: string, feet: int, inches: int, frac: int)
    requires Numeral(ins) && Numeral(num) && Numeral(den)
    ensures '\'' in Layout(ft, ins, num, den, feet, inches, frac) <==> feet != 0
  {
    assert (ft + "'")[|ft|] == '\'';
    LayoutHas('\'', ft, ins, num, den, feet, inches, frac);
  }

  lemma Slash(ft: string, ins: string, num: string, den: string, feet: int, inches: int, frac: int)
    requires Numeral(ft) && Numeral(ins)
    ensures '/' in Layout(ft, ins, num, den, feet, inches, frac) <==> frac != 0
  {
    assert (num + "/" + den)[|num|] == '/';
    LayoutHas('/', ft, ins, num, den, feet, inches, frac);
  }

  lemma InchMark(ft: string, ins: string, num: string, den: string, feet: int, inches: int, frac: int)
    requires Numeral(ft) && Numeral(ins) && Numeral(num) && Numeral(den)
    ensures '"' in Layout(ft, ins, num, den, feet, inches, frac) <==> inches != 0 || frac != 0
  {
    LayoutHas('"', ft, ins, num, den, feet, inches, frac);
  }

  lemma Space(ft: string, ins: string, num: string, den: string, feet: int, inches: int, frac: int)
    requires Numeral(ft) && Numeral(ins) && Numeral(num) && Numeral(den)
    ensures ' ' in Layout(ft, ins, num, den, feet, inches, frac) <==> inches != 0 && (feet != 0 || frac != 0)
  {
    LayoutHas(' ', ft, ins, num, den, feet, inches, frac);
  }

  /** A character is in the text exactly when it is in one of the shown pieces. */
  lemma LayoutHas(c: char, ft: string, ins: string, num: string, den: string, feet: int, inches: int, frac: int)
    ensures c in Layout(ft, ins, num, den, feet, inches, frac) <==>
      (feet != 0 && c in ft + "'") || (feet != 0 && inches != 0 && c in " - ") || (inches != 0 && c in ins) ||
      (inches != 0 && frac != 0 && c == ' ') || (frac != 0 && c in num + "/" + den) || ((inches != 0 || frac != 0) && c == '"')
  {
  }

  lemma LayoutShowsNumbers(ft: string, ins: string, num: string, den: string, feet: int, inches: int, frac: int)
    ensures ShowsNumbers(Layout(ft, ins, num, den, feet, inches, frac), ft, ins, num, den, feet, inches, frac)
  {
    if feet != 0 {
      FeetLayout(ft, ins, num, den, feet, inches, frac);
    } else {
      NoFeetLayout(ft, ins, num, den, feet, inches, frac);
    }
  }

  /** The text when there are feet. */
  lemma FeetLayout(ft: string, ins: string, num: string, den: string, feet: int, inches: int, frac: int)
    requires feet != 0
    ensures ShowsNumbers(Layout(ft, ins, num, den, feet, inches, frac), ft, ins, num, den, feet, inches, frac)
  {
    var tx := Layout(ft, ins, num, den, feet, inches, frac);
    if inches != 0 {
      assert (ft + "'") + " - " == ft + "' - ";
      if frac != 0 {
        assert tx == ft + "' - " + ins + " " + (num + "/" + den) + "\"";
      } else {
        assert tx == ft + "' - " + ins + "\"";
      }
    } else if frac != 0 {
      assert tx == ft + "'" + (num + "/" + den) + "\"";
    } else {
      assert tx == ft + "'";
    }
  }

  /** The text when there are no feet. */
  lemma NoFeetLayout(ft: string, ins: string, num: string, den: string, feet: int, inches: int, frac: int)
    requires feet == 0
    ensures ShowsNumbers(Layout(ft, ins, num, den, feet, inches, frac), ft, ins, num, den, feet, inches, frac)
  {
    var tx := Layout(ft, ins, num, den, feet, inches, frac);
    assert tx == Piece(inches != 0, ins) + Piece(inches != 0 && frac != 0, " ")
      + Piece(frac != 0, num + "/" + den) + Piece(inches != 0 || frac != 0, "\"");
    if inches != 0 {
      if frac != 0 {
        assert tx == ins + " " + (num + "/" + den) + "\"";
      } else {
        assert tx == ins + "\"";
      }
    } else if frac != 0 {
      assert tx == (num + "/" + den) + "\"";
    } else {
      assert tx == "";
    }
  }

  /** The length frac / base of an inch past feet and inches, in inches. */
  function InInches(feet: int, inches: int, frac: int, base: int): real
    requires base != 0
  {
    (12 * feet + inches) as real + frac as real / base as real
  }

  /** Lines 152-182: round up or reduce the fraction, carry twelve inches into a
      foot, and compose the text. The ghost results are the parts the text shows:
      the same length, a fraction in lowest terms that is never a whole inch, and
      never twelve inches. */
  method ImperialDistance(feet: int, inches: int, frac: int, base: int)
    returns (tx: string, ghost feet': int, ghost inches': int, ghost frac': int, ghost base': int)
    requires IsPowerOfTwo(base)
    ensures base' >= 1 && InInches(feet', inches', frac', base') == InInches(feet, inches, frac, base)
    ensures frac == base ==> frac' == 0 && base' == base
    ensures frac != base ==> ReducedForm(frac, base, frac', base')
    ensures frac' != base' && inches' != 12
    ensures 0 <= inches < 12 ==> 0 <= inches' < 12
    ensures var i := if frac == base then inches + 1 else inches;
      feet' == (if i == 12 then feet + 1 else feet) && inches' == (if i == 12 then 0 else i)
    ensures frac' == 0 <==> frac == base || frac == 0
    ensures Describes(tx, feet', inches', frac', base')
    ensures var i := if frac == base then inches + 1 else inches;
      var hasFraction := frac != base && frac != 0;
      ('\'' in tx <==> (if i == 12 then feet + 1 else feet) != 0) &&
      ('/' in tx <==> hasFraction) &&
      ('"' in tx <==> (i != 12 && i != 0) || hasFraction)
  {
    var i, f, b := ProperFraction(inches, frac, base);
    PowerOfTwoPositive(base);
    PowerOfTwoPositive(b);
    RoundingKeepsValue(feet, inches, frac, base, i, f, b);
    var ft := feet;
    if i == 12 {
      CarryKeepsValue(ft, f, b);
      ft := ft + 1;
      i := 0;
    }
    if frac != base {
      ZeroFraction(frac, base, f, b);
    }
    tx := ComposeImperial(ft, i, f, b);
    feet', inches', frac', base' := ft, i, f, b;
  }

  /** Reducing keeps a zero fraction zero and a nonzero one nonzero. */
  lemma ZeroFraction(frac: int, base: int, f: int, b: int)
    requires base > 0 && ReducedForm(frac, base, f, b)
    ensures f == 0 <==> frac == 0
  {
    PowerOfTwoPositive(b);
    if f == 0 {
      CancelPositive(frac, 0, b);
    }
  }

  /** Rounding a whole-inch fraction up into the inches, or reducing it, leaves the
      length unchanged. */
  lemma RoundingKeepsValue(feet: int, inches: int, frac: int, base: int, inches': int, frac': int, base': int)
    requires base > 0 && base' > 0
    requires frac == base ==> inches' == inches + 1 && frac' == 0
    requires frac != base ==> inches' == inches && frac' * base == frac * base'
    ensures InInches(feet, inches', frac', base') == InInches(feet, inches, frac, base)
  {
    if frac != base {
      SameRatio(frac, base, frac', base');
    } else {
      assert frac as real / base as real == 1.0;
      assert frac' as real / base' as real == 0.0;
    }
  }

  /** Twelve inches are one foot. */
  lemma CarryKeepsValue(feet: int, frac: int, base: int)
    requires base != 0
    ensures InInches(feet + 1, 0, frac, base) == InInches(feet, 12, frac, base)
  {
  }

  /** Cross-multiplied equal ratios are equal as reals. */
  lemma SameRatio(frac: int, base: int, f: int, b: int)
    requires base > 0 && b > 0 && f * base == frac * b
    ensures f as real / b as real == frac as real / base as real
  {
    assert (f as real) * (base as real) == (frac as real) * (b as real);
  }
}
