/** Integers among the numbers of `NumberText`. */
module IntegerText {
  import opened Wrappers
  import opened N = NumberText

  const MAX_SAFE_INTEGER := 9007199254740991

  function Magnitude(n: int): nat {
    if n < 0 then -n else n
  }

  function OfInt(n: int): (r: Number)
    ensures Canonical(r)
  {
    if n == 0 then Zero
    else
      var ds := Decimal(Magnitude(n));
      DecimalStarts(Magnitude(n));
      DropKeeps(ds);
      Finite(n < 0, DropTrailingZeros(ds), |ds|)
  }

  function IntOf(x: Number): Option<int> {
    match x
    case Zero => Some(0)
    case Finite(neg, ds, point) =>
      if point < |ds| then None
      else
        var v: int := Value(ds + Zeros(point - |ds|));
        Some(if neg then -v else v)
  }

  /** `Number.isSafeInteger` and the value it vouches for. */
  function SafeInteger(x: Number): Option<int> {
    match IntOf(x)
    case Some(n) => if Magnitude(n) <= MAX_SAFE_INTEGER then Some(n) else None
    case None => None
  }

  lemma {:induction false} DecimalStarts(m: nat)
    requires m > 0
    ensures Decimal(m) != [] && Decimal(m)[0] != 0
  {
    if m >= 10 {
      DecimalStarts(m / 10);
    } else {
      assert Decimal(m / 10) == [];
    }
  }

  lemma {:induction false} DropKeeps(ds: seq<Digit>)
    ensures |DropTrailingZeros(ds)| <= |ds|
    ensures ds == DropTrailingZeros(ds) + Zeros(|ds| - |DropTrailingZeros(ds)|)
    ensures ds != [] && ds[0] != 0 ==> Canonical(Finite(false, DropTrailingZeros(ds), 0))
    ensures ds != [] && ds[0] != 0 ==> DropTrailingZeros(ds) != [] && DropTrailingZeros(ds)[0] == ds[0]
  {
    if ds != [] && ds[|ds| - 1] == 0 {
      DropKeeps(ds[..|ds| - 1]);
    }
  }

  lemma PaddedValue(neg: bool, short: seq<Digit>, k: nat, ds: seq<Digit>)
    requires ds == short + Zeros(k)
    ensures IntOf(Finite(neg, short, |ds|)) == Some(if neg then -(Value(ds) as int) else Value(ds) as int)
  {
    assert |ds| - |short| == k;
  }

  lemma WholeRoundTrip(neg: bool, ds: seq<Digit>)
    ensures IntOf(Finite(neg, DropTrailingZeros(ds), |ds|))
         == Some(if neg then -(Value(ds) as int) else Value(ds) as int)
  {
    DropKeeps(ds);
    PaddedValue(neg, DropTrailingZeros(ds), |ds| - |DropTrailingZeros(ds)|, ds);
  }

  lemma IntRoundTrip(n: int)
    ensures IntOf(OfInt(n)) == Some(n)
  {
    WholeRoundTrip(n < 0, Decimal(Magnitude(n)));
    ValueOfDecimal(Magnitude(n));
  }
}
