/** The bit operators the coalition enumeration uses, on the non-negative integers it applies them to. */
module Bits {

  function Pow2(n: nat): (r: nat)
    ensures r > 0
  {
    if n == 0 then 1 else 2 * Pow2(n - 1)
  }

  predicate Bit(m: nat, i: nat) {
    if i == 0 then m % 2 == 1 else Bit(m / 2, i - 1)
  }

  /** `a & b` */
  function And(a: nat, b: nat): (r: nat)
    ensures r <= a && r <= b
  {
    if a == 0 || b == 0 then 0
    else 2 * And(a / 2, b / 2) + if a % 2 == 1 && b % 2 == 1 then 1 else 0
  }

  /** `a >> i` */
  function ShiftRight(a: nat, i: nat): nat {
    if i == 0 then a else ShiftRight(a / 2, i - 1)
  }

  /** The number of one bits. */
  function Ones(m: nat): nat {
    if m == 0 then 0 else m % 2 + Ones(m / 2)
  }

  /** The positions below `n` whose bit is set. */
  function Chosen(m: nat, n: nat): set<nat> {
    set i: nat | i < n && Bit(m, i)
  }

  lemma {:induction false} ZeroHasNoBits(i: nat)
    ensures !Bit(0, i)
  {
    if i > 0 {
      ZeroHasNoBits(i - 1);
    }
  }

  /** `mask & (1 << i)` is the bit test. */
  lemma {:induction false} TestBit(m: nat, i: nat)
    ensures And(m, Pow2(i)) != 0 <==> Bit(m, i)
  {
    if m == 0 {
      ZeroHasNoBits(i);
    } else if i > 0 {
      assert Pow2(i) / 2 == Pow2(i - 1) && Pow2(i) % 2 == 0;
      TestBit(m / 2, i - 1);
    } else if m % 2 == 0 {
      assert And(m / 2, 0) == 0;
    }
  }

  lemma AndOne(m: nat)
    ensures And(m, 1) == m % 2
  {
  }

  /** `(a >> i) & 1` is the bit test. */
  lemma {:induction false} TestShifted(a: nat, i: nat)
    ensures And(ShiftRight(a, i), 1) == if Bit(a, i) then 1 else 0
  {
    if i == 0 {
      AndOne(a);
    } else {
      TestShifted(a / 2, i - 1);
    }
  }

  /** Kernighan's step `m & (m - 1)` drops exactly one bit. */
  lemma {:induction false} DropsOneBit(m: nat)
    requires m > 0
    ensures And(m, m - 1) < m && Ones(And(m, m - 1)) == Ones(m) - 1
  {
    var k := m / 2;
    if m % 2 == 0 {
      assert (m - 1) / 2 == k - 1 && (m - 1) % 2 == 1;
      DropsOneBit(k);
      assert And(m, m - 1) == 2 * And(k, k - 1);
    } else {
      assert (m - 1) / 2 == k && (m - 1) % 2 == 0;
      AndSelf(k);
      if m > 1 {
        assert And(m, m - 1) == 2 * k;
      }
    }
  }

  lemma {:induction false} AndSelf(k: nat)
    ensures And(k, k) == k
  {
    if k > 0 {
      AndSelf(k / 2);
    }
  }

  method PopCount(mask: nat) returns (c: nat)
    ensures c == Ones(mask)
  {
    c := 0;
    var m := mask;
    while m != 0
      invariant c + Ones(m) == Ones(mask)
    {
      DropsOneBit(m);
      m := And(m, m - 1);
      c := c + 1;
    }
  }

  lemma {:induction false} EqualBits(a: nat, b: nat, n: nat)
    requires a < Pow2(n) && b < Pow2(n)
    requires forall i :: 0 <= i < n ==> Bit(a, i) == Bit(b, i)
    ensures a == b
  {
    if n > 0 {
      forall i | 0 <= i < n - 1
        ensures Bit(a / 2, i) == Bit(b / 2, i)
      {
        assert Bit(a, i + 1) == Bit(b, i + 1);
      }
      EqualBits(a / 2, b / 2, n - 1);
      assert Bit(a, 0) == Bit(b, 0);
    }
  }

  /** Masks below 2^n are the subsets of the first n positions, one for one. */
  lemma ChosenInjective(a: nat, b: nat, n: nat)
    requires a < Pow2(n) && b < Pow2(n) && Chosen(a, n) == Chosen(b, n)
    ensures a == b
  {
    forall i | 0 <= i < n
      ensures Bit(a, i) == Bit(b, i)
    {
      assert Bit(a, i) <==> i in Chosen(a, n);
      assert Bit(b, i) <==> i in Chosen(b, n);
    }
    EqualBits(a, b, n);
  }

  lemma {:induction false} MaskOf(s: set<nat>, n: nat) returns (m: nat)
    requires forall i :: i in s ==> i < n
    ensures m < Pow2(n) && Chosen(m, n) == s
    decreases n
  {
    if n == 0 {
      m := 0;
      assert s == {};
    } else {
      var t := set i | i in s && i > 0 :: i - 1;
      var k := MaskOf(t, n - 1);
      m := 2 * k + if 0 in s then 1 else 0;
      forall i: nat | i < n
        ensures Bit(m, i) <==> i in s
      {
        BitOfDoubled(k, if 0 in s then 1 else 0, i);
        if i > 0 {
          assert i in s <==> i - 1 in t;
          assert Bit(k, i - 1) <==> i - 1 in Chosen(k, n - 1);
        }
      }
    }
  }

  lemma BitOfDoubled(k: nat, b: nat, i: nat)
    requires b <= 1
    ensures Bit(2 * k + b, i) <==> if i == 0 then b == 1 else Bit(k, i - 1)
  {
    assert (2 * k + b) / 2 == k && (2 * k + b) % 2 == b;
  }

  lemma ChosenShifts(m: nat, n: nat)
    requires n > 0
    ensures forall i :: i in Chosen(m, n) - {0} <==> i > 0 && i - 1 in Chosen(m / 2, n - 1)
    ensures 0 in Chosen(m, n) <==> m % 2 == 1
  {
  }

  lemma ZeroAside(c: set<nat>)
    ensures |c| == |c - {0}| + if 0 in c then 1 else 0
  {
    if 0 in c {
      assert c == (c - {0}) + {0};
    } else {
      assert c == c - {0};
    }
  }

  lemma {:induction false} OnesCountsChosen(m: nat, n: nat)
    requires m < Pow2(n)
    ensures Ones(m) == |Chosen(m, n)|
  {
    if n == 0 {
      assert Chosen(m, n) == {};
    } else {
      OnesCountsChosen(m / 2, n - 1);
      ChosenShifts(m, n);
      ShiftedCard(Chosen(m / 2, n - 1), Chosen(m, n) - {0});
      ZeroAside(Chosen(m, n));
    }
  }

  lemma {:induction false} ShiftedCard(s: set<nat>, t: set<nat>)
    requires forall i :: i in t <==> i > 0 && i - 1 in s
    ensures |s| == |t|
  {
    if s == {} {
      assert t == {};
    } else {
      var x :| x in s;
      assert x + 1 in t;
      ShiftedCard(s - {x}, t - {x + 1});
    }
  }
}
