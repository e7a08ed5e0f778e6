/** Big-endian byte strings, and the two 256-bit encoders of the repository. */
module BigEndian {
  import opened Wrappers

  type Byte = x: int | 0 <= x < 256

  type Bytes = seq<Byte>

  function Pow256(n: nat): (r: nat)
    ensures r > 0
  {
    if n == 0 then 1 else 256 * Pow256(n - 1)
  }

  /** The low `n` bytes, most significant first; a negative value is written in two's complement. */
  function ToBytes(v: int, n: nat): (r: Bytes)
    ensures |r| == n
    decreases n
  {
    if n == 0 then [] else ToBytes(v / 256, n - 1) + [v % 256]
  }

  function FromBytes(b: Bytes): nat {
    if b == [] then 0 else 256 * FromBytes(b[..|b| - 1]) + b[|b| - 1]
  }

  lemma {:induction false} FromToBytes(v: int, n: nat)
    requires 0 <= v < Pow256(n)
    ensures FromBytes(ToBytes(v, n)) == v
    decreases n
  {
    if n > 0 {
      FromToBytes(v / 256, n - 1);
      assert ToBytes(v, n)[..n - 1] == ToBytes(v / 256, n - 1);
    }
  }

  lemma {:induction false} ToFromBytes(b: Bytes)
    ensures FromBytes(b) < Pow256(|b|) && ToBytes(FromBytes(b), |b|) == b
  {
    if b != [] {
      ToFromBytes(b[..|b| - 1]);
      var hi := FromBytes(b[..|b| - 1]);
      assert FromBytes(b) / 256 == hi && FromBytes(b) % 256 == b[|b| - 1];
      assert b == b[..|b| - 1] + [b[|b| - 1]];
    }
  }

  /** `v >> (8 * n)`, rounding down. */
  function Shift(v: int, n: nat): int
    decreases n
  {
    if n == 0 then v else Shift(v / 256, n - 1)
  }

  /** `v & (256^n - 1)`, which is never negative. */
  function Low(v: int, n: nat): nat
    decreases n
  {
    if n == 0 then 0 else 256 * Low(v / 256, n - 1) + v % 256
  }

  lemma {:induction false} LowIsSmall(v: int, n: nat)
    ensures Low(v, n) < Pow256(n)
    decreases n
  {
    if n > 0 {
      LowIsSmall(v / 256, n - 1);
    }
  }

  lemma {:induction false} SplitBytes(v: int, n: nat, m: nat)
    ensures ToBytes(v, n + m) == ToBytes(Shift(v, m), n) + ToBytes(v, m)
    decreases m
  {
    if m > 0 {
      SplitBytes(v / 256, n, m - 1);
    }
  }

  lemma {:induction false} MaskedBytes(v: int, n: nat)
    ensures ToBytes(Low(v, n), n) == ToBytes(v, n)
    decreases n
  {
    if n > 0 {
      MaskedBytes(v / 256, n - 1);
      assert Low(v, n) / 256 == Low(v / 256, n - 1);
    }
  }

  lemma {:induction false} ShiftTwice(v: int, n: nat, m: nat)
    ensures Shift(Shift(v, n), m) == Shift(v, n + m)
    decreases n
  {
    if n > 0 {
      ShiftTwice(v / 256, n - 1, m);
    }
  }

  /** The four 64-bit words of a value, most significant first. */
  lemma FourWords(v: int)
    ensures ToBytes(v, 32)
         == ToBytes(Shift(v, 24), 8) + ToBytes(Shift(v, 16), 8) + ToBytes(Shift(v, 8), 8) + ToBytes(v, 8)
  {
    SplitBytes(v, 24, 8);
    SplitBytes(Shift(v, 8), 16, 8);
    SplitBytes(Shift(v, 16), 8, 8);
    ShiftTwice(v, 8, 8);
    ShiftTwice(v, 16, 8);
  }

  /** `s` with `w` written over it at `at`. */
  function Put(s: Bytes, at: nat, w: Bytes): (r: Bytes)
    requires at + |w| <= |s|
    ensures |r| == |s|
  {
    s[..at] + w + s[at + |w|..]
  }

  /** `setBigUint64(at, word)`: eight bytes, most significant first. */
  method PutWord(out: array<Byte>, at: nat, word: nat)
    requires at + 8 <= out.Length && word < Pow256(8)
    modifies out
    ensures out[..] == Put(old(out[..]), at, ToBytes(word, 8))
  {
    var bytes := ToBytes(word, 8);
    ghost var before := out[..];
    assert Put(before, at, []) == before;
    for k := 0 to 8
      invariant out[..] == Put(before, at, bytes[..k])
    {
      PutOne(before, at, bytes, k);
      out[at + k] := bytes[k];
    }
    assert bytes[..8] == bytes;
  }

  lemma PutOne(s: Bytes, at: nat, w: Bytes, k: nat)
    requires at + |w| <= |s| && k < |w|
    ensures Put(s, at, w[..k])[at + k := w[k]] == Put(s, at, w[..k + 1])
  {
  }

  lemma PutDownwards(s: Bytes, w0: Bytes, w1: Bytes, w2: Bytes, w3: Bytes)
    requires |s| == 32 && |w0| == |w1| == |w2| == |w3| == 8
    ensures Put(Put(Put(Put(s, 24, w0), 16, w1), 8, w2), 0, w3) == w3 + w2 + w1 + w0
  {
    var s1 := Put(s, 24, w0);
    var s2 := Put(s1, 16, w1);
    var s3 := Put(s2, 8, w2);
    PutBefore(s, 24, w0, []);
    PutBefore(s1, 16, w1, w0);
    PutBefore(s2, 8, w2, w1 + w0);
    PutBefore(s3, 0, w3, w2 + (w1 + w0));
    assert w3 + (w2 + (w1 + w0)) == w3 + w2 + w1 + w0;
  }

  /** Writing `w` just before a known end. */
  lemma PutBefore(s: Bytes, at: nat, w: Bytes, end: Bytes)
    requires at + |w| <= |s| && s[at + |w|..] == end
    ensures Put(s, at, w)[at..] == w + end
  {
  }

  /** The 64-bit word `(v >> 64 * k) & 0xffffffffffffffff`, counted from the bottom. */
  function Word(v: int, k: nat): (r: nat)
    ensures r < Pow256(8)
  {
    LowIsSmall(Shift(v, 8 * k), 8);
    Low(Shift(v, 8 * k), 8)
  }

  lemma FourParts(a: Bytes, b: Bytes, c: Bytes, d: Bytes)
    requires |a| == |b| == |c| == |d| == 8
    ensures var s := a + b + c + d; s[0..8] == a && s[8..16] == b && s[16..24] == c && s[24..32] == d
  {
  }

  lemma WordsInPlace(v: int)
    ensures var b := ToBytes(v, 32);
      && b[0..8] == ToBytes(Word(v, 3), 8) && b[8..16] == ToBytes(Word(v, 2), 8)
      && b[16..24] == ToBytes(Word(v, 1), 8) && b[24..32] == ToBytes(Word(v, 0), 8)
  {
    FourWords(v);
    FourParts(ToBytes(Shift(v, 24), 8), ToBytes(Shift(v, 16), 8), ToBytes(Shift(v, 8), 8), ToBytes(v, 8));
    MaskedBytes(Shift(v, 24), 8);
    MaskedBytes(Shift(v, 16), 8);
    MaskedBytes(Shift(v, 8), 8);
    MaskedBytes(v, 8);
  }

  lemma WordAt(v: int, k: nat)
    requires k < 4
    ensures ToBytes(v, 32)[8 * (3 - k)..8 * (3 - k) + 8] == ToBytes(Word(v, k), 8)
  {
    WordsInPlace(v);
    if k == 0 {
      assert 8 * (3 - k) == 24;
    } else if k == 1 {
      assert 8 * (3 - k) == 16;
    } else if k == 2 {
      assert 8 * (3 - k) == 8;
    } else {
      assert 8 * (3 - k) == 0;
    }
  }

  /** Writing the next word of `want` extends what is already right. */
  lemma PutNext(s: Bytes, want: Bytes, at: nat)
    requires |s| == |want| == 32 && at + 8 <= 32 && s[..at] == want[..at]
    ensures Put(s, at, want[at..at + 8])[..at + 8] == want[..at + 8]
  {
    assert want[..at + 8] == want[..at] + want[at..at + 8];
  }

  /** packages/weighted-treasury/src/encoding.ts: range check, then the four words from the top. */
  method U256Checked(v: int) returns (r: Option<Bytes>)
    ensures r.Some? <==> 0 <= v < Pow256(32)
    ensures r.Some? ==> r.value == ToBytes(v, 32)
  {
    if v < 0 || v >= Pow256(32) { return None; }
    var out := new Byte[32];
    ghost var want := ToBytes(v, 32);
    for i := 0 to 4
      invariant out[..8 * i] == want[..8 * i]
    {
      WordAt(v, 3 - i);
      PutNext(out[..], want, 8 * i);
      PutWord(out, 8 * i, Word(v, 3 - i));
    }
    assert out[..] == out[..32];
    return Some(out[..]);
  }

  lemma FourWordsFill(blank: Bytes, v: int)
    requires |blank| == 32
    ensures Put(Put(Put(Put(blank, 24, ToBytes(Word(v, 0), 8)), 16, ToBytes(Word(v, 1), 8)), 8, ToBytes(Word(v, 2), 8)),
                0, ToBytes(Word(v, 3), 8))
         == ToBytes(v, 32)
  {
    var w0, w1 := ToBytes(Word(v, 0), 8), ToBytes(Word(v, 1), 8);
    var w2, w3 := ToBytes(Word(v, 2), 8), ToBytes(Word(v, 3), 8);
    PutDownwards(blank, w0, w1, w2, w3);
    WordsInPlace(v);
    Rejoined(ToBytes(v, 32), w3, w2, w1, w0);
  }

  lemma Rejoined(b: Bytes, w3: Bytes, w2: Bytes, w1: Bytes, w0: Bytes)
    requires |b| == 32 && b[0..8] == w3 && b[8..16] == w2 && b[16..24] == w1 && b[24..32] == w0
    ensures w3 + w2 + w1 + w0 == b
  {
  }

  /** apps/ultimate-treasury/server/solana.ts: the four words from the bottom, with no range check. */
  method U256Unchecked(v: int) returns (b: Bytes)
    ensures b == ToBytes(v, 32)
  {
    var out := new Byte[32];
    ghost var blank := out[..];
    PutWord(out, 24, Word(v, 0));
    PutWord(out, 16, Word(v, 1));
    PutWord(out, 8, Word(v, 2));
    PutWord(out, 0, Word(v, 3));
    FourWordsFill(blank, v);
    return out[..];
  }

  /**
   * Both encoders agree on every value that fits and big-endian reading inverts them. A value that does not fit is
   * refused by one, and by the other silently encoded as a different number.
   */
  lemma UncheckedIsFaithfulIffItFits(v: int)
    ensures FromBytes(ToBytes(v, 32)) == v <==> 0 <= v < Pow256(32)
  {
    ToFromBytes(ToBytes(v, 32));
    if 0 <= v < Pow256(32) {
      FromToBytes(v, 32);
    }
  }
}
