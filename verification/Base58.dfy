/** The base58 functions of apps/ultimate-treasury/server/solana.ts. */
module Base58 {
  import opened Wrappers
  import opened BigEndian

  /** The digits in order: 1-9, then A-Z without I and O, then a-z without l. */
  function DigitChar(d: nat): char
    requires d < 58
  {
    if d < 9 then '1' + d as char
    else if d < 17 then 'A' + (d - 9) as char
    else if d < 22 then 'J' + (d - 17) as char
    else if d < 33 then 'P' + (d - 22) as char
    else if d < 44 then 'a' + (d - 33) as char
    else 'm' + (d - 44) as char
  }

  /** The place of a character in the alphabet, or -1. */
  function IndexOf(c: char): (r: int)
    ensures -1 <= r < 58
    ensures r >= 0 ==> DigitChar(r) == c
  {
    if '1' <= c <= '9' then (c - '1') as int
    else if 'A' <= c <= 'H' then (c - 'A') as int + 9
    else if 'J' <= c <= 'N' then (c - 'J') as int + 17
    else if 'P' <= c <= 'Z' then (c - 'P') as int + 22
    else if 'a' <= c <= 'k' then (c - 'a') as int + 33
    else if 'm' <= c <= 'z' then (c - 'm') as int + 44
    else -1
  }

  predicate IsBase58(s: string) {
    forall i :: 0 <= i < |s| ==> IndexOf(s[i]) >= 0
  }

  /** The number a base58 text denotes. */
  function Value(s: string): nat
    requires IsBase58(s)
  {
    if s == "" then 0 else 58 * Value(s[..|s| - 1]) + IndexOf(s[|s| - 1])
  }

  /** The shortest base58 text of a number; zero has the empty text. */
  function Digits(n: nat): string {
    if n == 0 then "" else Digits(n / 58) + [DigitChar(n % 58)]
  }

  function Ones(k: nat): (r: string)
    ensures |r| == k && forall i :: 0 <= i < k ==> r[i] == '1'
  {
    seq(k, _ => '1')
  }

  /** How many zero bytes lead. */
  function LeadingZeros(b: Bytes): nat {
    if b == [] || b[0] != 0 then 0 else 1 + LeadingZeros(b[1..])
  }

  /** `bytesToBase58` */
  method BytesToBase58(b: Bytes) returns (out: string)
    ensures out == Encode(b)
  {
    var n := FromBytes(b);
    out := "";
    while n > 0
      invariant Digits(FromBytes(b)) == Digits(n) + out
    {
      DigitsStep(n, out);
      out := [DigitChar(n % 58)] + out;
      n := n / 58;
    }
    ghost var digits := out;
    var i := 0;
    while i < |b| && b[i] == 0
      invariant 0 <= i <= |b|
      invariant out == Ones(i) + digits
      invariant LeadingZeros(b) == i + LeadingZeros(b[i..])
    {
      OnesStep(i, digits);
      LeadingZerosStep(b, i);
      out := "1" + out;
      i := i + 1;
    }
  }

  lemma DigitsStep(n: nat, out: string)
    requires n > 0
    ensures Digits(n) + out == Digits(n / 58) + ([DigitChar(n % 58)] + out)
  {
  }

  lemma OnesStep(k: nat, s: string)
    ensures Ones(k + 1) + s == "1" + (Ones(k) + s)
  {
    assert Ones(k + 1) == "1" + Ones(k);
  }

  lemma LeadingZerosStep(b: Bytes, i: nat)
    requires i < |b| && b[i] == 0
    ensures LeadingZeros(b[i..]) == 1 + LeadingZeros(b[i + 1..])
  {
    assert b[i..][1..] == b[i + 1..];
  }

  function Encode(b: Bytes): string {
    Ones(LeadingZeros(b)) + Digits(FromBytes(b))
  }

  /** `base58ToBytes32`; `None` where it throws. */
  method Base58ToBytes32(s: string) returns (r: Option<Bytes>)
    ensures r == Decode(s)
  {
    var n := 0;
    for k := 0 to |s|
      invariant IsBase58(s[..k]) && n == Value(s[..k])
    {
      var i := IndexOf(s[k]);
      if i < 0 { return None; }
      assert s[..k + 1][..k] == s[..k];
      n := n * 58 + i;
    }
    assert s[..|s|] == s;
    if n >= Pow256(32) { return None; }
    return Some(ToBytes(n, 32));
  }

  function Decode(s: string): Option<Bytes> {
    if !IsBase58(s) || Value(s) >= Pow256(32) then None else Some(ToBytes(Value(s), 32))
  }

  // ---- Decode after encode ----

  /** Looking a digit up gives its place back. */
  lemma IndexOfDigit(d: nat)
    requires d < 58
    ensures IndexOf(DigitChar(d)) == d
  {
  }

  lemma {:induction false} DigitsDenote(n: nat)
    ensures IsBase58(Digits(n)) && Value(Digits(n)) == n
  {
    if n > 0 {
      DigitsDenote(n / 58);
      IndexOfDigit(n % 58);
      assert Digits(n)[..|Digits(n)| - 1] == Digits(n / 58);
    }
  }

  lemma ValueOfAppended(a: string, c: char)
    requires IsBase58(a) && IndexOf(c) >= 0
    ensures IsBase58(a + [c]) && Value(a + [c]) == Value(a) * 58 + IndexOf(c)
  {
    assert (a + [c])[..|a|] == a;
  }

  lemma {:induction false} LeadingOnesAddNothing(k: nat, s: string)
    requires IsBase58(s)
    ensures IsBase58(Ones(k) + s) && Value(Ones(k) + s) == Value(s)
  {
    if s == "" {
      OnesAreZero(k);
      assert Ones(k) + s == Ones(k);
    } else {
      var init, last := s[..|s| - 1], s[|s| - 1];
      LeadingOnesAddNothing(k, init);
      ValueOfAppended(Ones(k) + init, last);
      assert s == init + [last] && Ones(k) + s == (Ones(k) + init) + [last];
    }
  }

  lemma {:induction false} OnesAreZero(k: nat)
    ensures IsBase58(Ones(k)) && Value(Ones(k)) == 0
  {
    IndexOfDigit(0);
    if k > 0 {
      OnesAreZero(k - 1);
      ValueOfAppended(Ones(k - 1), '1');
      assert Ones(k) == Ones(k - 1) + "1";
    }
  }

  /** Every 32-byte key survives the trip through text, whatever its leading zeros. */
  lemma DecodeEncode(b: Bytes)
    requires |b| == 32
    ensures Decode(Encode(b)) == Some(b)
  {
    ToFromBytes(b);
    DigitsDenote(FromBytes(b));
    LeadingOnesAddNothing(LeadingZeros(b), Digits(FromBytes(b)));
  }

  // ---- Encode after decode ----

  lemma {:induction false} DigitsAreUnique(s: string)
    requires IsBase58(s) && (s != "" ==> s[0] != '1')
    ensures Digits(Value(s)) == s
  {
    if s != "" {
      var init, last := s[..|s| - 1], s[|s| - 1];
      DigitsAreUnique(init);
      assert IndexOf(last) < 58 && DigitChar(IndexOf(last)) == last;
      if init == "" {
        assert IndexOf(last) != 0;
      } else {
        assert Digits(Value(init)) != "";
      }
      assert s == init + [last];
      assert Value(s) / 58 == Value(init) && Value(s) % 58 == IndexOf(last);
    }
  }

  function CountOnes(s: string): nat {
    if s == "" || s[0] != '1' then 0 else 1 + CountOnes(s[1..])
  }

  lemma {:induction false} CountOnesSplits(s: string)
    ensures var k := CountOnes(s); k <= |s| && s == Ones(k) + s[k..] && (k < |s| ==> s[k] != '1')
  {
    if s != "" && s[0] == '1' {
      CountOnesSplits(s[1..]);
      var k := CountOnes(s);
      assert Ones(k) == "1" + Ones(k - 1);
      assert s == "1" + s[1..] && s[1..][k - 1..] == s[k..];
    }
  }

  /**
   * The decoder does not look at how many ones lead. A text it accepts is the one the encoder would write exactly when
   * its leading ones number the leading zero bytes of the key; otherwise two texts name one key.
   */
  lemma EncodeDecode(s: string)
    requires Decode(s).Some?
    ensures Encode(Decode(s).value) == s <==> CountOnes(s) == LeadingZeros(Decode(s).value)
  {
    var k, b := CountOnes(s), Decode(s).value;
    CountOnesSplits(s);
    var t := s[k..];
    LeadingOnesAddNothing(k, t);
    DigitsAreUnique(t);
    FromToBytes(Value(s), 32);
    var z := LeadingZeros(b);
    assert Encode(b) == Ones(z) + t;
    if Encode(b) == s {
      assert |Ones(z) + t| == |Ones(k) + t|;
    }
  }
}
