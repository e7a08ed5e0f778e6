/** Strings and numbers as `JSON.stringify` writes them, each with the reader that undoes it. */
module JsonText {
  import opened Wrappers

  /** A UTF-16 code unit; JavaScript strings may hold any of them. */
  type Unit = x: int | 0 <= x < 0x1_0000

  type Text = seq<Unit>

  const QUOTE: Unit := 34
  const BACKSLASH: Unit := 92

  // ---- Strings ----

  predicate IsHigh(u: Unit) {
    0xd800 <= u <= 0xdbff
  }

  predicate IsLow(u: Unit) {
    0xdc00 <= u <= 0xdfff
  }

  /** One lower-case hexadecimal digit. */
  function HexUnit(d: nat): Unit
    requires d < 16
  {
    if d < 10 then 48 + d else 87 + d
  }

  function HexValue(u: Unit): (r: Option<nat>)
    ensures r.Some? ==> r.value < 16
  {
    if 48 <= u <= 57 then Some(u - 48) else if 97 <= u <= 102 then Some(u - 87) else None
  }

  /** `\uXXXX` */
  function UnicodeEscape(u: Unit): (r: Text)
    ensures |r| == 6
  {
    [BACKSLASH, 117, HexUnit(u / 4096), HexUnit(u / 256 % 16), HexUnit(u / 16 % 16), HexUnit(u % 16)]
  }

  /**
   * The letter after the backslash of a two-unit escape: backspace, tab, newline, form feed, return, quote,
   * backslash.
   */
  function ShortEscape(u: Unit): Option<Unit> {
    if u == 8 then Some(98)
    else if u == 9 then Some(116)
    else if u == 10 then Some(110)
    else if u == 12 then Some(102)
    else if u == 13 then Some(114)
    else if u == QUOTE || u == BACKSLASH then Some(u)
    else None
  }

  function EscapeUnit(u: Unit): Text {
    match ShortEscape(u)
    case Some(e) => [BACKSLASH, e]
    case None => if u < 32 || IsHigh(u) || IsLow(u) then UnicodeEscape(u) else [u]
  }

  /** QuoteJSONString of ECMA-262 without its quotes: a surrogate pair is kept, a lone surrogate is escaped. */
  function Escape(s: Text): Text {
    if s == [] then []
    else if |s| >= 2 && IsHigh(s[0]) && IsLow(s[1]) then s[..2] + Escape(s[2..])
    else EscapeUnit(s[0]) + Escape(s[1..])
  }

  function Quote(s: Text): Text {
    [QUOTE] + Escape(s) + [QUOTE]
  }

  function Unshort(e: Unit): Option<Unit> {
    if e == 98 then Some(8)
    else if e == 116 then Some(9)
    else if e == 110 then Some(10)
    else if e == 102 then Some(12)
    else if e == 114 then Some(13)
    else if e == QUOTE || e == BACKSLASH then Some(e)
    else None
  }

  function ReadHex4(a: Unit, b: Unit, c: Unit, d: Unit): Option<Unit> {
    var x, y, z, w := HexValue(a), HexValue(b), HexValue(c), HexValue(d);
    if x.None? || y.None? || z.None? || w.None? then None
    else Some(4096 * x.value + 256 * y.value + 16 * z.value + w.value)
  }

  /** The unit at the head of escaped text, and how much text it took. */
  function ReadUnit(t: Text): (r: Option<(Unit, nat)>)
    requires t != []
    ensures r.Some? ==> 1 <= r.value.1 <= |t|
  {
    if t[0] != BACKSLASH then Some((t[0], 1))
    else if |t| < 2 then None
    else if t[1] == 117 then
      if |t| < 6 then None
      else match ReadHex4(t[2], t[3], t[4], t[5])
           case Some(u) => Some((u, 6))
           case None => None
    else match Unshort(t[1])
         case Some(u) => Some((u, 2))
         case None => None
  }

  /** Reads a string's contents up to its closing quote; gives the rest of the text. */
  function ReadString(t: Text): (r: Option<(Text, Text)>)
    ensures r.Some? ==> |r.value.1| < |t|
  {
    if t == [] then None
    else if t[0] == QUOTE then Some(([], t[1..]))
    else
      match ReadUnit(t)
      case None => None
      case Some((u, n)) =>
        match ReadString(t[n..])
        case None => None
        case Some((s, rest)) => Some(([u] + s, rest))
  }

  lemma HexRoundTrip(d: nat)
    requires d < 16
    ensures HexValue(HexUnit(d)) == Some(d)
  {
  }

  lemma Nibbles(u: nat)
    requires u < 0x1_0000
    ensures u / 4096 < 16 && u == 4096 * (u / 4096) + 256 * (u / 256 % 16) + 16 * (u / 16 % 16) + u % 16
  {
    var a := u / 16;
    var b := a / 16;
    assert u / 256 == b && u / 4096 == b / 16;
  }

  lemma Hex4RoundTrip(u: Unit)
    ensures ReadHex4(HexUnit(u / 4096), HexUnit(u / 256 % 16), HexUnit(u / 16 % 16), HexUnit(u % 16)) == Some(u)
  {
    Nibbles(u);
    HexRoundTrip(u / 4096);
    HexRoundTrip(u / 256 % 16);
    HexRoundTrip(u / 16 % 16);
    HexRoundTrip(u % 16);
  }

  lemma ReadEscapedUnit(u: Unit, rest: Text)
    ensures EscapeUnit(u) != [] && EscapeUnit(u)[0] != QUOTE
    ensures ReadUnit(EscapeUnit(u) + rest) == Some((u, |EscapeUnit(u)|))
  {
    var t := EscapeUnit(u) + rest;
    if ShortEscape(u).None? && (u < 32 || IsHigh(u) || IsLow(u)) {
      Hex4RoundTrip(u);
      assert t[..6] == UnicodeEscape(u);
      assert t[2] == HexUnit(u / 4096) && t[3] == HexUnit(u / 256 % 16);
      assert t[4] == HexUnit(u / 16 % 16) && t[5] == HexUnit(u % 16);
    }
  }

  lemma ReadOneUnit(head: Text, u: Unit, more: Text, tail: Text, rest: Text)
    requires head != [] && head[0] != QUOTE && ReadUnit(head + more) == Some((u, |head|))
    requires ReadString(more) == Some((tail, rest))
    ensures ReadString(head + more) == Some(([u] + tail, rest))
  {
    assert (head + more)[|head|..] == more;
  }

  lemma Assoc(a: Text, b: Text, c: Text)
    ensures (a + b) + c == a + (b + c)
  {
  }

  /** What follows a string's contents: its closing quote and the rest. */
  function Closed(s: Text, rest: Text): Text {
    Escape(s) + ([QUOTE] + rest)
  }

  lemma ClosePair(s: Text, rest: Text)
    requires |s| >= 2 && IsHigh(s[0]) && IsLow(s[1]) && ReadString(Closed(s[2..], rest)) == Some((s[2..], rest))
    ensures ReadString(Closed(s, rest)) == Some((s, rest))
  {
    var more := Closed(s[2..], rest);
    ReadOneUnit([s[1]], s[1], more, s[2..], rest);
    ReadOneUnit([s[0]], s[0], [s[1]] + more, [s[1]] + s[2..], rest);
    Assoc(s[..2], Escape(s[2..]), [QUOTE] + rest);
    Assoc([s[0]], [s[1]], more);
    assert s[..2] == [s[0]] + [s[1]];
    assert s == [s[0]] + ([s[1]] + s[2..]);
  }

  lemma CloseHead(head: Text, u: Unit, escaped: Text, tail: Text, rest: Text)
    requires head != [] && head[0] != QUOTE
    requires ReadUnit(head + (escaped + ([QUOTE] + rest))) == Some((u, |head|))
    requires ReadString(escaped + ([QUOTE] + rest)) == Some((tail, rest))
    ensures ReadString((head + escaped) + ([QUOTE] + rest)) == Some(([u] + tail, rest))
  {
    ReadOneUnit(head, u, escaped + ([QUOTE] + rest), tail, rest);
    Assoc(head, escaped, [QUOTE] + rest);
  }

  lemma CloseUnit(s: Text, rest: Text)
    requires s != [] && !(|s| >= 2 && IsHigh(s[0]) && IsLow(s[1]))
    requires ReadString(Closed(s[1..], rest)) == Some((s[1..], rest))
    ensures ReadString(Closed(s, rest)) == Some((s, rest))
  {
    ReadEscapedUnit(s[0], Closed(s[1..], rest));
    CloseHead(EscapeUnit(s[0]), s[0], Escape(s[1..]), s[1..], rest);
    assert s == [s[0]] + s[1..];
  }

  /** Reading undoes quoting, whatever the string holds and whatever follows. */
  lemma {:induction false} ReadQuoted(s: Text, rest: Text)
    ensures ReadString(Closed(s, rest)) == Some((s, rest))
    decreases |s|
  {
    if s == [] {
      assert Closed(s, rest) == [QUOTE] + rest;
    } else if |s| >= 2 && IsHigh(s[0]) && IsLow(s[1]) {
      ReadQuoted(s[2..], rest);
      ClosePair(s, rest);
    } else {
      ReadQuoted(s[1..], rest);
      CloseUnit(s, rest);
    }
  }
}
