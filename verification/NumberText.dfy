/**
 * Finite JavaScript numbers as `JSON.stringify` writes them (Number::toString of ECMA-262), and the reader that undoes
 * it. A number is given by its shortest round-trip decimal: 0.d1d2...dk times ten to the `point`. Both zeros are
 * `Zero`.
 */
module NumberText {
  import opened JsonText

  type Digit = x: int | 0 <= x < 10

  datatype Number = Zero | Finite(neg: bool, digits: seq<Digit>, point: int)

  predicate Canonical(n: Number) {
    n.Finite? ==> n.digits != [] && n.digits[0] != 0 && n.digits[|n.digits| - 1] != 0
  }

  const DOT: Unit := 46
  const EXP: Unit := 101
  const MINUS: Unit := 45
  const PLUS: Unit := 43

  function Units(ds: seq<Digit>): (r: Text)
    ensures |r| == |ds| && forall i :: 0 <= i < |r| ==> r[i] == 48 + (ds[i] as int)
  {
    seq(|ds|, i requires 0 <= i < |ds| => 48 + (ds[i] as int))
  }

  function Zeros(k: nat): (r: seq<Digit>)
    ensures |r| == k && forall i :: 0 <= i < k ==> r[i] == 0
  {
    seq(k, _ => 0)
  }

  function Decimal(m: nat): seq<Digit> {
    if m == 0 then [] else Decimal(m / 10) + [m % 10]
  }

  /** `e+21`, `e-7` */
  function ExponentText(e: int): Text {
    [EXP] + [if e >= 0 then PLUS else MINUS] + Units(Decimal(if e >= 0 then e else -e))
  }

  /** The magnitude, by the cases of Number::toString with its `n` as `point` and its `k` as the digit count. */
  function MagnitudeText(ds: seq<Digit>, point: int): Text
    requires ds != []
  {
    if |ds| <= point <= 21 then Units(ds + Zeros(point - |ds|))
    else if 0 < point <= 21 then Units(ds[..point]) + [DOT] + Units(ds[point..])
    else if -6 < point <= 0 then Units([0]) + [DOT] + Units(Zeros(-point) + ds)
    else ScaledText(ds, point - 1)
  }

  function ScaledText(ds: seq<Digit>, e: int): Text
    requires ds != []
  {
    if |ds| == 1 then Units(ds) + ExponentText(e)
    else Units(ds[..1]) + [DOT] + Units(ds[1..]) + ExponentText(e)
  }

  function Text(n: Number): JsonText.Text
    requires Canonical(n)
  {
    match n
    case Zero => Units([0])
    case Finite(neg, ds, point) => (if neg then [MINUS] else []) + MagnitudeText(ds, point)
  }

  // ---- Reading ----

  /** The first place `u` occurs in `t`, or its length. */
  function Find(t: JsonText.Text, u: Unit): (r: nat)
    ensures r <= |t|
  {
    if t == [] || t[0] == u then 0 else 1 + Find(t[1..], u)
  }

  predicate AllDigits(t: JsonText.Text) {
    forall i :: 0 <= i < |t| ==> 48 <= t[i] <= 57
  }

  function Digits(t: JsonText.Text): (r: seq<Digit>)
    requires AllDigits(t)
    ensures |r| == |t|
  {
    seq(|t|, i requires 0 <= i < |t| => t[i] - 48)
  }

  function Value(ds: seq<Digit>): nat {
    if ds == [] then 0 else 10 * Value(ds[..|ds| - 1]) + ds[|ds| - 1]
  }

  function LeadingZeros(ds: seq<Digit>): (r: nat)
    ensures r <= |ds|
  {
    if ds == [] || ds[0] != 0 then 0 else 1 + LeadingZeros(ds[1..])
  }

  function DropTrailingZeros(ds: seq<Digit>): seq<Digit> {
    if ds != [] && ds[|ds| - 1] == 0 then DropTrailingZeros(ds[..|ds| - 1]) else ds
  }

  /** The number 0.ds times ten to the `point`, in canonical form. */
  function Normalise(neg: bool, ds: seq<Digit>, point: int): Number {
    var lead := LeadingZeros(ds);
    if lead == |ds| then Zero else Finite(neg, DropTrailingZeros(ds[lead..]), point - lead)
  }

  /** An exponent: a sign, then digits. */
  function ReadExponent(t: JsonText.Text): int {
    if |t| < 1 || !AllDigits(t[1..]) then 0
    else if t[0] == MINUS then 0 - (Value(Digits(t[1..])) as int) else Value(Digits(t[1..]))
  }

  /** Digits with an optional point, scaled by ten to the `exponent`. */
  function ReadDecimal(neg: bool, t: JsonText.Text, exponent: int): Number {
    var p := Find(t, DOT);
    var whole, fraction := t[..p], if p == |t| then [] else t[p + 1..];
    if !AllDigits(whole) || !AllDigits(fraction) then Zero
    else Normalise(neg, Digits(whole) + Digits(fraction), |whole| + exponent)
  }

  function ReadMagnitude(neg: bool, t: JsonText.Text): Number {
    var e := Find(t, EXP);
    ReadDecimal(neg, t[..e], if e == |t| then 0 else ReadExponent(t[e + 1..]))
  }

  function Read(t: JsonText.Text): Number {
    if t != [] && t[0] == MINUS then ReadMagnitude(true, t[1..]) else ReadMagnitude(false, t)
  }

  // ---- Reading undoes writing ----

  lemma DigitsOfUnits(ds: seq<Digit>)
    ensures AllDigits(Units(ds)) && Digits(Units(ds)) == ds
  {
  }

  lemma {:induction false} FindAbsent(t: JsonText.Text, u: Unit)
    requires u !in t
    ensures Find(t, u) == |t|
  {
    if t != [] {
      FindAbsent(t[1..], u);
    }
  }

  lemma {:induction false} FindFirst(t: JsonText.Text, u: Unit, rest: JsonText.Text)
    requires u !in t
    ensures Find(t + [u] + rest, u) == |t|
  {
    var s := t + [u] + rest;
    if t != [] {
      FindFirst(t[1..], u, rest);
      assert s[1..] == t[1..] + [u] + rest;
    }
  }

  lemma {:induction false} ValueOfDecimal(m: nat)
    ensures Value(Decimal(m)) == m
  {
    if m > 0 {
      ValueOfDecimal(m / 10);
      assert Decimal(m)[..|Decimal(m)| - 1] == Decimal(m / 10);
    }
  }

  lemma {:induction false} LeadingZerosOf(k: nat, ds: seq<Digit>)
    requires ds != [] && ds[0] != 0
    ensures LeadingZeros(Zeros(k) + ds) == k
  {
    if k == 0 {
      assert Zeros(k) + ds == ds;
    } else {
      LeadingZerosOf(k - 1, ds);
      assert (Zeros(k) + ds)[1..] == Zeros(k - 1) + ds;
    }
  }

  lemma {:induction false} DropTrailingZerosOf(ds: seq<Digit>, k: nat)
    requires ds != [] && ds[|ds| - 1] != 0
    ensures DropTrailingZeros(ds + Zeros(k)) == ds
  {
    if k == 0 {
      assert ds + Zeros(k) == ds;
    } else {
      DropTrailingZerosOf(ds, k - 1);
      assert (ds + Zeros(k))[..|ds| + k - 1] == ds + Zeros(k - 1);
    }
  }

  /** Padding zeros on either side change nothing but the place of the point. */
  lemma NormalisePadded(neg: bool, a: nat, ds: seq<Digit>, b: nat, point: int)
    requires ds != [] && ds[0] != 0 && ds[|ds| - 1] != 0
    ensures Normalise(neg, Zeros(a) + (ds + Zeros(b)), point + a) == Finite(neg, ds, point)
  {
    var all := Zeros(a) + (ds + Zeros(b));
    LeadingZerosOf(a, ds + Zeros(b));
    assert all[a..] == ds + Zeros(b);
    DropTrailingZerosOf(ds, b);
  }

  lemma NormaliseTrailing(neg: bool, ds: seq<Digit>, b: nat, point: int)
    requires ds != [] && ds[0] != 0 && ds[|ds| - 1] != 0
    ensures Normalise(neg, ds + Zeros(b), point) == Finite(neg, ds, point)
  {
    NormalisePadded(neg, 0, ds, b, point);
    assert Zeros(0) + (ds + Zeros(b)) == ds + Zeros(b);
  }

  lemma ReadWhole(neg: bool, whole: seq<Digit>, exponent: int)
    ensures ReadDecimal(neg, Units(whole), exponent) == Normalise(neg, whole, |whole| + exponent)
  {
    FindAbsent(Units(whole), DOT);
    DigitsOfUnits(whole);
    assert Units(whole)[..|whole|] == Units(whole);
    assert whole + [] == whole;
  }

  lemma ReadPointed(neg: bool, whole: seq<Digit>, fraction: seq<Digit>, exponent: int)
    ensures ReadDecimal(neg, Units(whole) + [DOT] + Units(fraction), exponent)
         == Normalise(neg, whole + fraction, |whole| + exponent)
  {
    var t := Units(whole) + [DOT] + Units(fraction);
    FindFirst(Units(whole), DOT, Units(fraction));
    DigitsOfUnits(whole);
    DigitsOfUnits(fraction);
    assert t[..|whole|] == Units(whole) && t[|whole| + 1..] == Units(fraction);
  }

  lemma ReadPlain(neg: bool, t: JsonText.Text)
    requires EXP !in t
    ensures ReadMagnitude(neg, t) == ReadDecimal(neg, t, 0)
  {
    FindAbsent(t, EXP);
    assert t[..|t|] == t;
  }

  lemma ReadExponentText(e: int)
    ensures ReadExponent(ExponentText(e)[1..]) == e
  {
    var m := Decimal(if e >= 0 then e else -e);
    var sign: Unit := if e >= 0 then PLUS else MINUS;
    assert ExponentText(e)[1..] == [sign] + Units(m);
    assert ([sign] + Units(m))[1..] == Units(m);
    DigitsOfUnits(m);
    ValueOfDecimal(if e >= 0 then e else -e);
  }

  lemma ReadScaled(neg: bool, t: JsonText.Text, e: int)
    requires EXP !in t
    ensures ReadMagnitude(neg, t + ExponentText(e)) == ReadDecimal(neg, t, e)
  {
    var tail := ExponentText(e)[1..];
    var s := t + [EXP] + tail;
    assert ExponentText(e) == [EXP] + tail;
    assert t + ExponentText(e) == s;
    FindFirst(t, EXP, tail);
    assert s[..|t|] == t && s[|t| + 1..] == tail;
    ReadExponentText(e);
  }

  lemma UnitsHaveNoMarks(ds: seq<Digit>)
    ensures DOT !in Units(ds) && EXP !in Units(ds) && MINUS !in Units(ds)
  {
  }

  lemma PointedHasNoExp(whole: seq<Digit>, fraction: seq<Digit>)
    ensures EXP !in Units(whole) + [DOT] + Units(fraction)
  {
    UnitsHaveNoMarks(whole);
    UnitsHaveNoMarks(fraction);
  }

  lemma ReadWholeNumber(neg: bool, ds: seq<Digit>, b: nat)
    requires ds != [] && ds[0] != 0 && ds[|ds| - 1] != 0
    ensures ReadMagnitude(neg, Units(ds + Zeros(b))) == Finite(neg, ds, |ds| + b)
  {
    var whole := ds + Zeros(b);
    UnitsHaveNoMarks(whole);
    ReadPlain(neg, Units(whole));
    ReadWhole(neg, whole, 0);
    NormaliseTrailing(neg, ds, b, |whole|);
  }

  lemma ReadPointedNumber(neg: bool, whole: seq<Digit>, fraction: seq<Digit>, a: nat, ds: seq<Digit>)
    requires ds != [] && ds[0] != 0 && ds[|ds| - 1] != 0 && whole + fraction == Zeros(a) + ds
    ensures ReadMagnitude(neg, Units(whole) + [DOT] + Units(fraction)) == Finite(neg, ds, |whole| - a)
  {
    PointedHasNoExp(whole, fraction);
    ReadPlain(neg, Units(whole) + [DOT] + Units(fraction));
    ReadPointed(neg, whole, fraction, 0);
    NormalisePadded(neg, a, ds, 0, |whole| - a);
    assert ds + Zeros(0) == ds;
  }

  lemma ReadScaledDigit(neg: bool, ds: seq<Digit>, e: int)
    requires |ds| == 1 && ds[0] != 0
    ensures ReadMagnitude(neg, Units(ds) + ExponentText(e)) == Finite(neg, ds, e + 1)
  {
    UnitsHaveNoMarks(ds);
    ReadScaled(neg, Units(ds), e);
    ReadWhole(neg, ds, e);
    NormalisePadded(neg, 0, ds, 0, e + 1);
    assert Zeros(0) + (ds + Zeros(0)) == ds;
  }

  lemma ReadScaledPointed(neg: bool, ds: seq<Digit>, e: int)
    requires |ds| > 1 && ds[0] != 0 && ds[|ds| - 1] != 0
    ensures ReadMagnitude(neg, Units(ds[..1]) + [DOT] + Units(ds[1..]) + ExponentText(e)) == Finite(neg, ds, e + 1)
  {
    PointedHasNoExp(ds[..1], ds[1..]);
    ReadSplitDecimal(neg, ds, e);
    ReadScaled(neg, Units(ds[..1]) + [DOT] + Units(ds[1..]), e);
  }

  lemma ReadSplitDecimal(neg: bool, ds: seq<Digit>, e: int)
    requires |ds| > 1 && ds[0] != 0 && ds[|ds| - 1] != 0
    ensures ReadDecimal(neg, Units(ds[..1]) + [DOT] + Units(ds[1..]), e) == Finite(neg, ds, e + 1)
  {
    ReadPointed(neg, ds[..1], ds[1..], e);
    NormaliseIdle(neg, ds, e + 1);
    assert ds[..1] + ds[1..] == ds;
  }

  lemma NormaliseIdle(neg: bool, ds: seq<Digit>, point: int)
    requires ds != [] && ds[0] != 0 && ds[|ds| - 1] != 0
    ensures Normalise(neg, ds, point) == Finite(neg, ds, point)
  {
    NormaliseTrailing(neg, ds, 0, point);
    assert ds + Zeros(0) == ds;
  }

  lemma SplitDigits(ds: seq<Digit>, k: nat)
    requires k <= |ds|
    ensures ds[..k] + ds[k..] == Zeros(0) + ds
  {
  }

  lemma PadDigits(ds: seq<Digit>, k: nat)
    ensures [0] + (Zeros(k) + ds) == Zeros(k + 1) + ds
  {
  }

  lemma ReadSplitText(neg: bool, ds: seq<Digit>, point: int)
    requires ds != [] && ds[0] != 0 && ds[|ds| - 1] != 0 && 0 < point < |ds| && point <= 21
    ensures ReadMagnitude(neg, MagnitudeText(ds, point)) == Finite(neg, ds, point)
  {
    SplitDigits(ds, point);
    ReadPointedNumber(neg, ds[..point], ds[point..], 0, ds);
    assert MagnitudeText(ds, point) == Units(ds[..point]) + [DOT] + Units(ds[point..]);
  }

  lemma ReadSmallText(neg: bool, ds: seq<Digit>, point: int)
    requires ds != [] && ds[0] != 0 && ds[|ds| - 1] != 0 && -6 < point <= 0
    ensures ReadMagnitude(neg, MagnitudeText(ds, point)) == Finite(neg, ds, point)
  {
    PadDigits(ds, -point);
    ReadPointedNumber(neg, [0], Zeros(-point) + ds, 1 - point, ds);
    assert MagnitudeText(ds, point) == Units([0]) + [DOT] + Units(Zeros(-point) + ds);
  }

  lemma WholeTextIs(ds: seq<Digit>, point: int)
    requires ds != [] && |ds| <= point <= 21
    ensures MagnitudeText(ds, point) == Units(ds + Zeros(point - |ds|))
  {
  }

  lemma ReadWholeText(neg: bool, ds: seq<Digit>, point: int)
    requires ds != [] && ds[0] != 0 && ds[|ds| - 1] != 0 && |ds| <= point <= 21
    ensures ReadMagnitude(neg, MagnitudeText(ds, point)) == Finite(neg, ds, point)
  {
    WholeTextIs(ds, point);
    ReadWholeNumber(neg, ds, point - |ds|);
  }

  lemma ReadScaledText(neg: bool, ds: seq<Digit>, e: int)
    requires ds != [] && ds[0] != 0 && ds[|ds| - 1] != 0
    ensures ReadMagnitude(neg, ScaledText(ds, e)) == Finite(neg, ds, e + 1)
  {
    if |ds| == 1 {
      ReadScaledDigit(neg, ds, e);
    } else {
      ReadScaledPointed(neg, ds, e);
    }
  }

  lemma ReadScaledMagnitude(neg: bool, ds: seq<Digit>, point: int)
    requires ds != [] && ds[0] != 0 && ds[|ds| - 1] != 0 && !(-6 < point <= 21)
    ensures ReadMagnitude(neg, MagnitudeText(ds, point)) == Finite(neg, ds, point)
  {
    ReadScaledText(neg, ds, point - 1);
  }

  lemma ReadMagnitudeText(neg: bool, ds: seq<Digit>, point: int)
    requires ds != [] && ds[0] != 0 && ds[|ds| - 1] != 0
    ensures ReadMagnitude(neg, MagnitudeText(ds, point)) == Finite(neg, ds, point)
  {
    if |ds| <= point <= 21 {
      ReadWholeText(neg, ds, point);
    } else if -6 < point <= 21 {
      if 0 < point {
        ReadSplitText(neg, ds, point);
      } else {
        ReadSmallText(neg, ds, point);
      }
    } else {
      ReadScaledMagnitude(neg, ds, point);
    }
  }

  lemma MagnitudeStart(ds: seq<Digit>, point: int)
    requires ds != []
    ensures MagnitudeText(ds, point) != [] && 48 <= MagnitudeText(ds, point)[0] <= 57
  {
  }

  /** Reading a number's text gives the number back; so different numbers have different texts. */
  lemma ReadText(n: Number)
    requires Canonical(n)
    ensures Read(Text(n)) == n
  {
    match n
    case Zero =>
      UnitsHaveNoMarks([0]);
      ReadPlain(false, Units([0]));
      ReadWhole(false, [0], 0);
    case Finite(neg, ds, point) =>
      var m := MagnitudeText(ds, point);
      MagnitudeStart(ds, point);
      ReadMagnitudeText(neg, ds, point);
      assert ([MINUS] + m)[1..] == m && [] + m == m;
  }

  // ---- Number texts end where their characters end ----

  predicate IsNumberUnit(u: Unit) {
    48 <= u <= 57 || u == DOT || u == EXP || u == MINUS || u == PLUS
  }

  predicate AllNumberUnits(t: JsonText.Text) {
    forall i :: 0 <= i < |t| ==> IsNumberUnit(t[i])
  }

  lemma NumberUnitsJoin(a: JsonText.Text, b: JsonText.Text)
    requires AllNumberUnits(a) && AllNumberUnits(b)
    ensures AllNumberUnits(a + b)
  {
  }

  lemma DigitUnitsAreNumberUnits(ds: seq<Digit>)
    ensures AllNumberUnits(Units(ds))
  {
  }

  lemma ExponentUnits(e: int)
    ensures AllNumberUnits(ExponentText(e))
  {
    DigitUnitsAreNumberUnits(Decimal(if e >= 0 then e else -e));
  }

  lemma PointedUnits(a: seq<Digit>, b: seq<Digit>)
    ensures AllNumberUnits(Units(a) + [DOT] + Units(b))
  {
    DigitUnitsAreNumberUnits(a);
    DigitUnitsAreNumberUnits(b);
  }

  lemma MagnitudeUnits(ds: seq<Digit>, point: int)
    requires ds != []
    ensures AllNumberUnits(MagnitudeText(ds, point))
  {
    if |ds| <= point <= 21 {
      DigitUnitsAreNumberUnits(ds + Zeros(point - |ds|));
    } else if 0 < point <= 21 {
      PointedUnits(ds[..point], ds[point..]);
    } else if -6 < point <= 0 {
      PointedUnits([0], Zeros(-point) + ds);
    } else {
      ScaledUnits(ds, point - 1);
    }
  }

  lemma ScaledUnits(ds: seq<Digit>, e: int)
    requires ds != []
    ensures AllNumberUnits(ScaledText(ds, e))
  {
    ExponentUnits(e);
    if |ds| == 1 {
      DigitUnitsAreNumberUnits(ds);
      NumberUnitsJoin(Units(ds), ExponentText(e));
    } else {
      PointedUnits(ds[..1], ds[1..]);
      NumberUnitsJoin(Units(ds[..1]) + [DOT] + Units(ds[1..]), ExponentText(e));
    }
  }

  lemma TextUnits(n: Number)
    requires Canonical(n)
    ensures Text(n) != [] && AllNumberUnits(Text(n)) && (48 <= Text(n)[0] <= 57 || Text(n)[0] == MINUS)
  {
    match n
    case Zero => DigitUnitsAreNumberUnits([0]);
    case Finite(neg, ds, point) =>
      MagnitudeStart(ds, point);
      MagnitudeUnits(ds, point);
      NumberUnitsJoin(if neg then [MINUS] else [], MagnitudeText(ds, point));
  }
}
