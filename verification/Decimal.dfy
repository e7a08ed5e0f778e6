/**
 * Decimal texts: `canonicalDecimal` of packages/cre/src/evidence.ts and `units` of
 * packages/weighted-treasury/src/judge.ts. Both write a quantity in its one shortest form.
 */
module Decimal {
  import opened Wrappers
  import opened Text

  function Pow10(k: nat): (r: nat)
    ensures r >= 1
  {
    if k == 0 then 1 else 10 * Pow10(k - 1)
  }

  /** The integer and fraction digits of a text shaped like `12` or `12.50`; a point needs digits on both sides. */
  function Parts(raw: string): (r: Option<(string, string)>)
    ensures r.Some? ==> r.value.0 != "" && AllDigits(r.value.0) && AllDigits(r.value.1)
  {
    var p := Split(raw, '.');
    if |p| > 2 || (exists k :: 0 <= k < |p| && (p[k] == "" || !AllDigits(p[k]))) then None
    else Some((p[0], if |p| == 2 then p[1] else ""))
  }

  /** Drops leading zeros, keeping at least one digit. */
  function StripLeading(s: string): (r: string)
    ensures AllDigits(s) ==> AllDigits(r)
    ensures s != "" ==> r != ""
  {
    if |s| > 1 && s[0] == '0' then StripLeading(s[1..]) else s
  }

  function StripTrailing(s: string): (r: string)
    ensures |r| <= |s| && r == s[..|r|]
    ensures r != "" ==> r[|r| - 1] != '0'
  {
    if s != "" && s[|s| - 1] == '0' then StripTrailing(s[..|s| - 1]) else s
  }

  function Compose(whole: string, fraction: string): string {
    if fraction != "" then whole + "." + fraction else whole
  }

  /** `None` where the source throws. */
  function CanonicalDecimal(raw: string): Option<string> {
    match Parts(raw)
    case None => None
    case Some((whole, fraction)) => Some(Compose(StripLeading(whole), StripTrailing(fraction)))
  }

  // ---- What a decimal text denotes ----

  /** The text denotes `n / 10^scale`, with `n` its digits read together and `scale` its fraction's length. */
  function Numerator(p: (string, string)): nat
    requires AllDigits(p.0) && AllDigits(p.1)
  {
    DigitsValue(p.0 + p.1)
  }

  /** The two texts denote the same rational number. */
  predicate SameValue(p: (string, string), q: (string, string))
    requires AllDigits(p.0) && AllDigits(p.1) && AllDigits(q.0) && AllDigits(q.1)
  {
    Numerator(p) * Pow10(|q.1|) == Numerator(q) * Pow10(|p.1|)
  }

  predicate CanonicalParts(p: (string, string)) {
    && AllDigits(p.0) && AllDigits(p.1) && p.0 != ""
    && (|p.0| > 1 ==> p.0[0] != '0')
    && (p.1 != "" ==> p.1[|p.1| - 1] != '0')
  }

  lemma {:induction false} Pow10Adds(a: nat, b: nat)
    ensures Pow10(a + b) == Pow10(a) * Pow10(b)
  {
    if a > 0 {
      Pow10Adds(a - 1, b);
      assert Pow10(a + b) == 10 * Pow10(a - 1 + b);
    }
  }

  lemma ShiftDigit(a: nat, m: nat, b: nat, d: nat)
    ensures 10 * (a * m + b) + d == a * (10 * m) + (10 * b + d)
  {
  }

  lemma {:induction false} ValueSplits(a: string, b: string)
    requires AllDigits(a) && AllDigits(b)
    ensures AllDigits(a + b) && DigitsValue(a + b) == DigitsValue(a) * Pow10(|b|) + DigitsValue(b)
    decreases |b|
  {
    if b == "" {
      assert a + b == a;
    } else {
      var init, d := b[..|b| - 1], (b[|b| - 1] - '0') as int;
      ValueSplits(a, init);
      assert (a + b)[..|a + b| - 1] == a + init;
      ShiftDigit(DigitsValue(a), Pow10(|init|), DigitsValue(init), d);
    }
  }

  lemma {:induction false} ValueBound(a: string)
    requires AllDigits(a)
    ensures DigitsValue(a) < Pow10(|a|)
  {
    if a != "" {
      ValueBound(a[..|a| - 1]);
    }
  }

  /** Texts of one length with one value are one text. */
  lemma {:induction false} SameLengthUnique(a: string, b: string)
    requires AllDigits(a) && AllDigits(b) && |a| == |b| && DigitsValue(a) == DigitsValue(b)
    ensures a == b
  {
    if a != "" {
      var m, n := a[..|a| - 1], b[..|b| - 1];
      var x, y := (a[|a| - 1] - '0') as int, (b[|b| - 1] - '0') as int;
      assert 10 * DigitsValue(m) + x == 10 * DigitsValue(n) + y;
      SameLengthUnique(m, n);
      assert a == m + [a[|a| - 1]] && b == n + [b[|b| - 1]];
    }
  }

  lemma {:induction false} LeadingDigitCounts(a: string)
    requires AllDigits(a) && a != "" && a[0] != '0'
    ensures DigitsValue(a) >= Pow10(|a| - 1)
  {
    if |a| > 1 {
      LeadingDigitCounts(a[..|a| - 1]);
    } else {
      assert a[..0] == "";
    }
  }

  lemma Pow10Monotone(a: nat, b: nat)
    ensures a <= b ==> Pow10(a) <= Pow10(b)
  {
    if a <= b {
      Pow10Adds(a, b - a);
      assert Pow10(a) * 1 <= Pow10(a) * Pow10(b - a);
    }
  }

  lemma NoLongerThan(a: string, b: string)
    requires AllDigits(a) && AllDigits(b) && a != "" && (|a| > 1 ==> a[0] != '0') && |b| >= 1
    requires DigitsValue(a) == DigitsValue(b)
    ensures |a| <= |b|
  {
    if |a| > 1 {
      LeadingDigitCounts(a);
      ValueBound(b);
      Pow10Monotone(|b|, |a| - 1);
    }
  }

  lemma WholeUnique(a: string, b: string)
    requires AllDigits(a) && AllDigits(b) && a != "" && b != ""
    requires (|a| > 1 ==> a[0] != '0') && (|b| > 1 ==> b[0] != '0')
    requires DigitsValue(a) == DigitsValue(b)
    ensures a == b
  {
    NoLongerThan(a, b);
    NoLongerThan(b, a);
    SameLengthUnique(a, b);
  }

  lemma OneMore(a: nat, c: nat, m: nat)
    ensures a < c ==> a * m + m <= c * m
  {
    if a < c {
      assert (a + 1) * m <= c * m;
    }
  }

  lemma QuotientUnique(a: nat, b: nat, c: nat, d: nat, m: nat)
    requires b < m && d < m && a * m + b == c * m + d
    ensures a == c && b == d
  {
    OneMore(a, c, m);
    OneMore(c, a, m);
  }

  lemma SameScaleUnique(p: (string, string), q: (string, string))
    requires CanonicalParts(p) && CanonicalParts(q) && |p.1| == |q.1| && Numerator(p) == Numerator(q)
    ensures p == q
  {
    ValueSplits(p.0, p.1);
    ValueSplits(q.0, q.1);
    ValueBound(p.1);
    ValueBound(q.1);
    QuotientUnique(DigitsValue(p.0), DigitsValue(p.1), DigitsValue(q.0), DigitsValue(q.1), Pow10(|p.1|));
    WholeUnique(p.0, q.0);
    SameLengthUnique(p.1, q.1);
  }

  /** A canonical fraction is as short as its value allows. */
  lemma NoLongerFraction(p: (string, string), q: (string, string))
    requires CanonicalParts(p) && AllDigits(q.0) && AllDigits(q.1) && SameValue(p, q)
    ensures |p.1| <= |q.1|
  {
    if p.1 != "" {
      LastDigit(p);
      WiderScale(Numerator(p), Numerator(q), |p.1|, |q.1|);
    }
  }

  lemma WiderScale(n: nat, m: nat, a: nat, b: nat)
    requires n * Pow10(b) == m * Pow10(a)
    ensures a > b ==> n % 10 == 0
  {
    if a > b {
      var k := a - b - 1;
      Pow10Adds(b, k + 1);
      CancelScale(n, m, Pow10(b), Pow10(k + 1));
      TimesTen(m, Pow10(k));
    }
  }

  lemma TimesTen(m: nat, t: nat)
    ensures (m * (10 * t)) % 10 == 0
  {
    assert m * (10 * t) == 10 * (m * t);
  }

  lemma CancelScale(n: nat, m: nat, s: nat, t: nat)
    requires s > 0 && n * s == m * (s * t)
    ensures n == m * t
  {
    assert m * (s * t) == (m * t) * s;
    OneMore(n, m * t, s);
    OneMore(m * t, n, s);
  }

  lemma LastDigit(p: (string, string))
    requires CanonicalParts(p) && p.1 != ""
    ensures Numerator(p) % 10 != 0
  {
    var all := p.0 + p.1;
    assert all[|all| - 1] == p.1[|p.1| - 1];
    assert Numerator(p) == 10 * DigitsValue(all[..|all| - 1]) + (all[|all| - 1] - '0') as int;
  }

  lemma CanonicalUnique(p: (string, string), q: (string, string))
    requires CanonicalParts(p) && CanonicalParts(q) && SameValue(p, q)
    ensures p == q
  {
    NoLongerFraction(p, q);
    NoLongerFraction(q, p);
    CancelScale(Numerator(p), Numerator(q), Pow10(|p.1|), 1);
    SameScaleUnique(p, q);
  }

  // ---- Canonical texts ----

  lemma AllDigitsHaveNoPoint(s: string)
    requires AllDigits(s)
    ensures '.' !in s
  {
  }

  /** A composed text splits back into its parts. */
  lemma PartsOfCompose(p: (string, string))
    requires p.0 != "" && AllDigits(p.0) && AllDigits(p.1)
    ensures Parts(Compose(p.0, p.1)) == Some(p)
  {
    AllDigitsHaveNoPoint(p.0);
    AllDigitsHaveNoPoint(p.1);
    if p.1 == "" {
      SplitClean(p.0, '.');
    } else {
      SplitAfterClean(p.0, '.', p.1);
      SplitClean(p.1, '.');
      assert p.0 + "." + p.1 == p.0 + ['.'] + p.1;
    }
  }

  lemma {:induction false} StripLeadingKeeps(s: string)
    requires AllDigits(s)
    ensures DigitsValue(StripLeading(s)) == DigitsValue(s)
    ensures |StripLeading(s)| > 1 ==> StripLeading(s)[0] != '0'
  {
    if |s| > 1 && s[0] == '0' {
      StripLeadingKeeps(s[1..]);
      assert s == s[..1] + s[1..];
      ValueSplits(s[..1], s[1..]);
      assert s[..1][..0] == "";
    }
  }

  lemma StripLeadingIdle(s: string)
    requires |s| > 1 ==> s[0] != '0'
    ensures StripLeading(s) == s
  {
  }

  /** Dropping trailing zeros divides the digits by a power of ten. */
  lemma {:induction false} StripTrailingKeeps(whole: string, s: string)
    requires AllDigits(whole) && AllDigits(s)
    ensures DigitsValue(whole + s) == DigitsValue(whole + StripTrailing(s)) * Pow10(|s| - |StripTrailing(s)|)
    decreases |s|
  {
    if s != "" && s[|s| - 1] == '0' {
      var init := s[..|s| - 1];
      StripTrailingKeeps(whole, init);
      assert (whole + s)[..|whole + s| - 1] == whole + init;
      var k := |init| - |StripTrailing(s)|;
      TenTimes(DigitsValue(whole + StripTrailing(s)), Pow10(k));
      assert Pow10(k + 1) == 10 * Pow10(k);
    }
  }

  lemma TenTimes(n: nat, t: nat)
    ensures 10 * (n * t) == n * (10 * t)
  {
  }

  function Canonical(p: (string, string)): (string, string) {
    (StripLeading(p.0), StripTrailing(p.1))
  }

  lemma CanonicalPartsOf(p: (string, string))
    requires p.0 != "" && AllDigits(p.0) && AllDigits(p.1)
    ensures CanonicalParts(Canonical(p)) && SameValue(p, Canonical(p))
  {
    var c := Canonical(p);
    StripLeadingKeeps(p.0);
    ValueSplits(p.0, p.1);
    ValueSplits(c.0, p.1);
    StripTrailingKeeps(c.0, p.1);
    Pow10Adds(|p.1| - |c.1|, |c.1|);
    MulAssoc(Numerator(c), Pow10(|p.1| - |c.1|), Pow10(|c.1|));
  }

  lemma MulAssoc(a: nat, b: nat, c: nat)
    ensures a * (b * c) == (a * b) * c
  {
  }

  lemma CrossTransitive(a: nat, sa: nat, b: nat, sb: nat, c: nat, sc: nat)
    requires sb > 0 && a * sb == b * sa && b * sc == c * sb
    ensures a * sc == c * sa
  {
    calc {
      (a * sc) * sb;
      (a * sb) * sc;
      (b * sa) * sc;
      (b * sc) * sa;
      (c * sb) * sa;
      (c * sa) * sb;
    }
    OneMore(a * sc, c * sa, sb);
    OneMore(c * sa, a * sc, sb);
  }

  lemma SameValueTransitive(p: (string, string), q: (string, string), r: (string, string))
    requires AllDigits(p.0) && AllDigits(p.1) && AllDigits(q.0) && AllDigits(q.1) && AllDigits(r.0) && AllDigits(r.1)
    requires SameValue(p, q) && SameValue(q, r)
    ensures SameValue(p, r)
  {
    CrossTransitive(Numerator(p), Pow10(|p.1|), Numerator(q), Pow10(|q.1|), Numerator(r), Pow10(|r.1|));
  }

  lemma CanonicalIdle(p: (string, string))
    requires CanonicalParts(p)
    ensures CanonicalDecimal(Compose(p.0, p.1)) == Some(Compose(p.0, p.1))
  {
    PartsOfCompose(p);
    StripLeadingIdle(p.0);
  }

  /** The canonical text is a fixed point and denotes what the original did. */
  lemma CanonicalIsIdempotent(raw: string)
    requires Parts(raw).Some?
    ensures CanonicalDecimal(raw).Some?
    ensures CanonicalDecimal(CanonicalDecimal(raw).value) == CanonicalDecimal(raw)
    ensures var c := Parts(CanonicalDecimal(raw).value); c.Some? && SameValue(Parts(raw).value, c.value)
  {
    var p := Parts(raw).value;
    CanonicalPartsOf(p);
    CanonicalIdle(Canonical(p));
    PartsOfCompose(Canonical(p));
  }

  /** Two decimal texts have one canonical text exactly when they denote one rational number. */
  lemma CanonicalIffSameValue(a: string, b: string)
    requires Parts(a).Some? && Parts(b).Some?
    ensures CanonicalDecimal(a) == CanonicalDecimal(b) <==> SameValue(Parts(a).value, Parts(b).value)
  {
    var p, q := Parts(a).value, Parts(b).value;
    CanonicalPartsOf(p);
    CanonicalPartsOf(q);
    if CanonicalDecimal(a) == CanonicalDecimal(b) {
      PartsOfCompose(Canonical(p));
      PartsOfCompose(Canonical(q));
      SameValueTransitive(p, Canonical(p), q);
    }
    if SameValue(p, q) {
      SameValueTransitive(Canonical(p), p, q);
      SameValueTransitive(Canonical(p), q, Canonical(q));
      CanonicalUnique(Canonical(p), Canonical(q));
    }
  }

  // ---- Token amounts as text ----

  /** `toString` of a non-negative bigint. */
  function Digits(n: nat): (r: string)
    ensures r != "" && AllDigits(r)
  {
    if n < 10 then ['0' + n as char] else Digits(n / 10) + ['0' + (n % 10) as char]
  }

  /** `padStart(width, '0')` */
  function PadStart(s: string, width: nat): (r: string)
    ensures AllDigits(s) ==> AllDigits(r)
    decreases width - |s|
  {
    if |s| < width then PadStart("0" + s, width) else s
  }

  /** `value / base` and `value % base` of bigints. */
  function DivMod(value: nat, base: nat): (r: (nat, nat))
    requires base > 0
    ensures r.1 < base && r.0 * base + r.1 == value
  {
    DivisionIsNatural(value, base);
    (value / base, value % base)
  }

  lemma NegativeTimes(q: int, base: int)
    requires base > 0
    ensures q <= -1 ==> q * base <= -base
  {
    if q <= -1 {
      assert (-q - 1) * base >= 0;
    }
  }

  lemma DivisionIsNatural(value: int, base: int)
    requires value >= 0 && base > 0
    ensures value / base >= 0 && (value / base) * base + value % base == value
  {
    NegativeTimes(value / base, base);
  }

  /** The same on any bigint: the quotient is truncated and the remainder has the sign of the value. */
  function TruncDivMod(value: int, base: nat): (int, int)
    requires base > 0
  {
    if value >= 0 then DivMod(value, base)
    else
      var (quotient, remainder) := DivMod(-value, base);
      (-(quotient as int), -(remainder as int))
  }

  /** `toString` of a bigint. */
  function SignedDigits(n: int): string {
    if n < 0 then "-" + Digits(-n) else Digits(n)
  }

  /** `units`: `value / 10^decimals` in decimal, without trailing zeros. */
  function Units(value: int, decimals: nat): string {
    if decimals == 0 then SignedDigits(value)
    else
      var (whole, rest) := TruncDivMod(value, Pow10(decimals));
      Compose(SignedDigits(whole), StripTrailing(PadStart(SignedDigits(rest), decimals)))
  }

  lemma {:induction false} DigitsDenote(n: nat)
    ensures DigitsValue(Digits(n)) == n
    ensures n > 0 ==> Digits(n)[0] != '0'
    ensures |Digits(n)| > 1 ==> n >= 10
  {
    if n < 10 {
      assert Digits(n)[..0] == "";
    } else {
      DigitsDenote(n / 10);
      assert Digits(n)[..|Digits(n)| - 1] == Digits(n / 10);
    }
  }

  lemma {:induction false} DigitsFit(n: nat, width: nat)
    requires width >= 1 && n < Pow10(width)
    ensures |Digits(n)| <= width
  {
    if n >= 10 {
      DigitsFit(n / 10, width - 1);
    }
  }

  lemma {:induction false} PadKeeps(s: string, width: nat)
    requires AllDigits(s) && |s| <= width
    ensures |PadStart(s, width)| == width && DigitsValue(PadStart(s, width)) == DigitsValue(s)
    decreases width - |s|
  {
    if |s| < width {
      PadKeeps("0" + s, width);
      ValueSplits("0", s);
      assert "0"[..0] == "";
    }
  }

  lemma WholeDenotes(value: nat)
    ensures CanonicalParts((Digits(value), "")) && Numerator((Digits(value), "")) == value
  {
    DigitsDenote(value);
    assert Digits(value) + "" == Digits(value);
  }

  lemma DigitsAreCanonical(n: nat)
    ensures |Digits(n)| > 1 ==> Digits(n)[0] != '0'
  {
    DigitsDenote(n);
  }

  /** Dropping trailing zeros from a padded fraction keeps the number. */
  lemma StrippedDenotes(whole: string, padded: string, value: nat)
    requires AllDigits(whole) && AllDigits(padded) && DigitsValue(whole + padded) == value
    ensures var fraction := StripTrailing(padded);
      DigitsValue(whole + fraction) * Pow10(|padded|) == value * Pow10(|fraction|)
  {
    var fraction := StripTrailing(padded);
    StripTrailingKeeps(whole, padded);
    Pow10Adds(|padded| - |fraction|, |fraction|);
    MulAssoc(DigitsValue(whole + fraction), Pow10(|padded| - |fraction|), Pow10(|fraction|));
  }

  function ScaledParts(whole: nat, rest: nat, decimals: nat): (string, string) {
    (Digits(whole), StripTrailing(PadStart(Digits(rest), decimals)))
  }

  lemma ScaledPartsDenote(whole: nat, rest: nat, decimals: nat)
    requires decimals >= 1 && rest < Pow10(decimals)
    ensures var p := ScaledParts(whole, rest, decimals);
      && CanonicalParts(p)
      && Numerator(p) * Pow10(decimals) == (whole * Pow10(decimals) + rest) * Pow10(|p.1|)
  {
    DigitsAreCanonical(whole);
    PaddedDenotes(whole, rest, decimals);
    StrippedDenotes(Digits(whole), PadStart(Digits(rest), decimals), whole * Pow10(decimals) + rest);
  }

  lemma PaddedDenotes(whole: nat, rest: nat, decimals: nat)
    requires decimals >= 1 && rest < Pow10(decimals)
    ensures var padded := PadStart(Digits(rest), decimals);
      |padded| == decimals && DigitsValue(Digits(whole) + padded) == whole * Pow10(decimals) + rest
  {
    DigitsDenote(whole);
    DigitsDenote(rest);
    DigitsFit(rest, decimals);
    PadKeeps(Digits(rest), decimals);
    ValueSplits(Digits(whole), PadStart(Digits(rest), decimals));
  }

  /** The text is a canonical decimal for `value / 10^decimals`. */
  ghost predicate Exact(text: string, value: nat, decimals: nat) {
    var p := Parts(text);
    && p.Some? && Numerator(p.value) * Pow10(decimals) == value * Pow10(|p.value.1|)
    && CanonicalDecimal(text) == Some(text)
  }

  lemma ComposedIsExact(p: (string, string), value: nat, decimals: nat)
    requires CanonicalParts(p) && Numerator(p) * Pow10(decimals) == value * Pow10(|p.1|)
    ensures Exact(Compose(p.0, p.1), value, decimals)
  {
    PartsOfCompose(p);
    CanonicalIdle(p);
  }

  lemma NonNegativeUnits(value: nat, decimals: nat)
    ensures Exact(Units(value, decimals), value, decimals)
  {
    if decimals == 0 {
      WholeDenotes(value);
      ComposedIsExact((Digits(value), ""), value, decimals);
    } else {
      var (whole, rest) := DivMod(value, Pow10(decimals));
      ScaledPartsDenote(whole, rest, decimals);
      ComposedIsExact(ScaledParts(whole, rest, decimals), value, decimals);
    }
  }

  lemma {:induction false} PadKeepsChar(s: string, width: nat, c: char)
    requires c in s
    ensures c in PadStart(s, width)
    decreases width - |s|
  {
    if |s| < width {
      PadKeepsChar("0" + s, width, c);
    }
  }

  lemma {:induction false} StripKeepsChar(s: string, c: char)
    requires c in s && c != '0'
    ensures c in StripTrailing(s)
  {
    if s[|s| - 1] == '0' {
      assert s == s[..|s| - 1] + ['0'];
      StripKeepsChar(s[..|s| - 1], c);
    }
  }

  lemma NegativeHasSign(value: int, decimals: nat)
    requires value < 0
    ensures '-' in Units(value, decimals)
  {
    assert forall n: int :: n < 0 ==> SignedDigits(n)[0] == '-';
    if decimals > 0 {
      var (whole, rest) := TruncDivMod(value, Pow10(decimals));
      if whole == 0 {
        PadKeepsChar(SignedDigits(rest), decimals, '-');
        StripKeepsChar(PadStart(SignedDigits(rest), decimals), '-');
      }
    }
  }

  lemma SignIsRefused(text: string)
    requires '-' in text
    ensures Parts(text).None?
  {
    SplitCovers(text, '.', '-');
  }

  /**
   * `units` writes exactly `value / 10^decimals`, already in canonical form, if and only if the value is not negative;
   * a negative one gives no decimal text at all.
   */
  lemma UnitsAreExact(value: int, decimals: nat)
    ensures Parts(Units(value, decimals)).Some? <==> value >= 0
    ensures value >= 0 ==> Exact(Units(value, decimals), value, decimals)
  {
    if value >= 0 {
      NonNegativeUnits(value, decimals);
    } else {
      NegativeHasSign(value, decimals);
      SignIsRefused(Units(value, decimals));
    }
  }
}
