/**
 * Circle's Solana burn-intent layout: the TypeScript encoder (apps/ultimate-treasury/server/solana.ts) and the Rust
 * decoder (tools/frost-delegate/src/main.rs) of one binary format.
 */
module BurnIntent {
  import opened Wrappers
  import opened BigEndian

  const TRANSFER_SPEC_MAGIC: nat := 0xca85_def7
  const BURN_INTENT_MAGIC: nat := 0x070a_fbc2
  const SPEC_LEN: nat := 340
  const MESSAGE_LEN: nat := 428
  const U32: nat := 0x1_0000_0000

  /** The 16-byte signing domain, 0xff followed by zeros. */
  function SigningDomain(): (r: Bytes)
    ensures |r| == 16
  {
    [255, 0, 0, 0, 0, 0, 0, 0, 0, 0, 0, 0, 0, 0, 0, 0]
  }

  /**
   * An intent as the encoder takes it. `words` are the eight address words in layout order: source contract,
   * destination contract, source token, destination token, depositor, recipient, signer, caller.
   */
  datatype Intent = Intent(
    maxBlockHeight: int,
    maxFee: int,
    version: int,
    sourceDomain: int,
    destinationDomain: int,
    words: seq<Bytes>,
    value: int,
    salt: Bytes,
    hook: Bytes)

  /** An intent as the decoder returns it: words stay bytes, and the salt is not kept. */
  datatype Decoded = Decoded(
    maxBlockHeight: Bytes,
    maxFee: Bytes,
    version: nat,
    sourceDomain: nat,
    destinationDomain: nat,
    words: seq<Bytes>,
    value: Bytes)

  // ---- Encoding ----

  function Flatten(ws: seq<Bytes>): Bytes {
    if ws == [] then [] else Flatten(ws[..|ws| - 1]) + ws[|ws| - 1]
  }

  function SpecHead(i: Intent): (r: Bytes)
    ensures |r| == 16
  {
    ToBytes(TRANSFER_SPEC_MAGIC, 4) + ToBytes(i.version, 4)
    + ToBytes(i.sourceDomain, 4) + ToBytes(i.destinationDomain, 4)
  }

  function SpecWords(i: Intent): seq<Bytes> {
    i.words + [ToBytes(i.value, 32), i.salt]
  }

  function EncodeSpec(i: Intent): Bytes {
    SpecHead(i) + Flatten(SpecWords(i)) + ToBytes(|i.hook|, 4) + i.hook
  }

  function Header(i: Intent, specLen: nat): (r: Bytes)
    ensures |r| == 72
  {
    ToBytes(BURN_INTENT_MAGIC, 4) + ToBytes(i.maxBlockHeight, 32) + ToBytes(i.maxFee, 32) + ToBytes(specLen, 4)
  }

  /** What `writeUInt32BE` takes. */
  predicate IsU32(n: int) {
    0 <= n < U32
  }

  /** `encodeSolanaIntent`; `None` where it throws. A 32-bit field out of range throws, a 256-bit one is truncated. */
  function EncodeSolanaIntent(i: Intent): Option<Bytes> {
    var spec := EncodeSpec(i);
    if !IsU32(i.version) || !IsU32(i.sourceDomain) || !IsU32(i.destinationDomain) || !IsU32(|spec|) then None
    else if |spec| != SPEC_LEN + |i.hook| then None
    else Some(Header(i, |spec|) + spec)
  }

  /** What `frostSign` passes to the coordinator. */
  function Message(i: Intent): Option<Bytes> {
    match EncodeSolanaIntent(i)
    case None => None
    case Some(b) => Some(SigningDomain() + b)
  }

  // ---- Decoding ----

  function U32At(m: Bytes, o: nat): nat
    requires o + 4 <= |m|
  {
    FromBytes(m[o..o + 4])
  }

  function WordAt(m: Bytes, o: nat): (r: Bytes)
    requires o + 32 <= |m|
    ensures |r| == 32
  {
    m[o..o + 32]
  }

  /** Word `k` of the ten that follow the spec head. */
  function SpecWordAt(m: Bytes, k: nat): Bytes
    requires |m| == MESSAGE_LEN && k < 10
  {
    WordAt(m, 104 + 32 * k)
  }

  predicate Frames(m: Bytes) {
    && |m| == MESSAGE_LEN
    && m[..16] == SigningDomain()
    && U32At(m, 16) == BURN_INTENT_MAGIC
    && U32At(m, 84) == SPEC_LEN
    && U32At(m, 88) == TRANSFER_SPEC_MAGIC
    && U32At(m, 424) == 0
  }

  function Parse(m: Bytes): Option<Decoded> {
    if !Frames(m) then None
    else
      Some(Decoded(WordAt(m, 20), WordAt(m, 52), U32At(m, 92), U32At(m, 96), U32At(m, 100),
                   seq(8, k requires 0 <= k < 8 => SpecWordAt(m, k)), SpecWordAt(m, 8)))
  }

  /** `parse_message`: a cursor walks the message. */
  method ParseMessage(m: Bytes) returns (r: Option<Decoded>)
    ensures r == Parse(m)
  {
    if |m| != MESSAGE_LEN { return None; }
    if m[..16] != SigningDomain() { return None; }
    var o := 16;
    if U32At(m, o) != BURN_INTENT_MAGIC { return None; }
    o := o + 4;
    var maxBlockHeight := WordAt(m, o);
    o := o + 32;
    var maxFee := WordAt(m, o);
    o := o + 32;
    if U32At(m, o) != SPEC_LEN { return None; }
    o := o + 4;
    if U32At(m, o) != TRANSFER_SPEC_MAGIC { return None; }
    var version, sourceDomain, destinationDomain := U32At(m, o + 4), U32At(m, o + 8), U32At(m, o + 12);
    o := o + 16;
    var words: seq<Bytes> := [];
    for k := 0 to 10
      invariant o == 104 + 32 * k && |words| == k
      invariant forall j :: 0 <= j < k ==> words[j] == SpecWordAt(m, j)
    {
      words := words + [WordAt(m, o)];
      o := o + 32;
    }
    if U32At(m, o) != 0 { return None; }
    assert words[..8] == seq(8, k requires 0 <= k < 8 => SpecWordAt(m, k));
    return Some(Decoded(maxBlockHeight, maxFee, version, sourceDomain, destinationDomain, words[..8], words[8]));
  }

  // ---- Round trips ----

  /** An intent every field of which fits its place in the layout. */
  ghost predicate Fits(i: Intent) {
    && 0 <= i.maxBlockHeight < Pow256(32) && 0 <= i.maxFee < Pow256(32) && 0 <= i.value < Pow256(32)
    && IsU32(i.version) && IsU32(i.sourceDomain) && IsU32(i.destinationDomain)
    && |i.words| == 8 && (forall k :: 0 <= k < 8 ==> |i.words[k]| == 32) && |i.salt| == 32
  }

  ghost predicate AllWords(ws: seq<Bytes>) {
    forall k :: 0 <= k < |ws| ==> |ws[k]| == 32
  }

  lemma {:induction false} FlattenLength(ws: seq<Bytes>)
    requires AllWords(ws)
    ensures |Flatten(ws)| == 32 * |ws|
  {
    if ws != [] {
      FlattenLength(ws[..|ws| - 1]);
    }
  }

  lemma {:induction false} FlattenAt(ws: seq<Bytes>, k: nat)
    requires AllWords(ws) && k < |ws|
    ensures |Flatten(ws)| == 32 * |ws| && Flatten(ws)[32 * k..32 * k + 32] == ws[k]
  {
    var n := |ws| - 1;
    FlattenLength(ws);
    FlattenLength(ws[..n]);
    if k < n {
      FlattenAt(ws[..n], k);
      assert Flatten(ws)[..32 * n] == Flatten(ws[..n]);
      assert Flatten(ws)[32 * k..32 * k + 32] == Flatten(ws)[..32 * n][32 * k..32 * k + 32];
    }
  }

  lemma FourBytes()
    ensures Pow256(4) == U32
  {
    assert Pow256(1) == 256;
    assert Pow256(2) == 0x1_0000;
    assert Pow256(3) == 0x100_0000;
  }

  lemma U32RoundTrip(v: nat)
    requires v < U32
    ensures FromBytes(ToBytes(v, 4)) == v
  {
    FourBytes();
    FromToBytes(v, 4);
  }

  lemma EncodedLength(i: Intent)
    requires Fits(i)
    ensures |EncodeSpec(i)| == SPEC_LEN + |i.hook|
  {
    SpecWordsAreWords(i);
    FlattenLength(SpecWords(i));
  }

  lemma SpecWordsAreWords(i: Intent)
    requires Fits(i)
    ensures AllWords(SpecWords(i)) && |SpecWords(i)| == 10
  {
  }

  lemma EncodesTo(i: Intent)
    requires Fits(i) && i.hook == []
    ensures EncodeSolanaIntent(i) == Some(Header(i, SPEC_LEN) + EncodeSpec(i))
  {
    EncodedLength(i);
  }

  /** The encoding, in one line. */
  lemma MessageOf(i: Intent)
    requires Fits(i) && i.hook == []
    ensures Message(i)
         == Some(SigningDomain() + (Header(i, SPEC_LEN) + (SpecHead(i) + Flatten(SpecWords(i)) + ToBytes(0, 4) + [])))
  {
    EncodesTo(i);
    assert EncodeSpec(i) == SpecHead(i) + Flatten(SpecWords(i)) + ToBytes(0, 4) + [];
  }

  lemma SubSlice(m: Bytes, a: nat, b: nat, x: nat, y: nat)
    requires a <= b <= |m| && x <= y <= b - a
    ensures m[a..b][x..y] == m[a + x..a + y]
  {
    var s, t := m[a..b][x..y], m[a + x..a + y];
    assert |s| == |t|;
    forall k | 0 <= k < |s|
      ensures s[k] == t[k]
    {
      assert s[k] == m[a..b][x + k] == m[a + x + k];
    }
  }

  lemma Chunks(m: Bytes, d: Bytes, h: Bytes, s: Bytes, w: Bytes, z: Bytes)
    requires m == d + (h + (s + w + z + []))
    requires |d| == 16 && |h| == 72 && |s| == 16 && |w| == 320 && |z| == 4
    ensures |m| == 428 && m[..16] == d && m[16..88] == h && m[88..104] == s && m[104..424] == w && m[424..428] == z
  {
    var t := s + w + z + [];
    var r := h + t;
    assert m[16..428] == r && r[72..412] == t;
    assert t[..16] == s && t[16..336] == w && t[336..340] == z;
    SubSlice(m, 16, 428, 0, 72);
    SubSlice(m, 16, 428, 72, 412);
    SubSlice(m, 88, 428, 0, 16);
    SubSlice(m, 88, 428, 16, 336);
    SubSlice(m, 88, 428, 336, 340);
  }

  /** Where each piece of an encoded hook-free intent lies. */
  lemma Layout(i: Intent, m: Bytes)
    requires Fits(i) && i.hook == [] && Message(i) == Some(m)
    ensures |m| == MESSAGE_LEN && m[..16] == SigningDomain() && m[16..88] == Header(i, SPEC_LEN)
    ensures m[88..104] == SpecHead(i) && m[104..424] == Flatten(SpecWords(i)) && m[424..428] == ToBytes(0, 4)
  {
    SpecWordsAreWords(i);
    FlattenLength(SpecWords(i));
    MessageOf(i);
    Chunks(m, SigningDomain(), Header(i, SPEC_LEN), SpecHead(i), Flatten(SpecWords(i)), ToBytes(0, 4));
  }

  lemma FourPieces(s: Bytes, a: Bytes, b: Bytes, c: Bytes, d: Bytes)
    requires s == a + b + c + d
    ensures s[..|a|] == a && s[|a|..|a| + |b|] == b
    ensures s[|a| + |b|..|a| + |b| + |c|] == c && s[|a| + |b| + |c|..|a| + |b| + |c| + |d|] == d
  {
  }

  lemma FourSlices(m: Bytes, a: nat, b: nat, c: nat, d: nat, e: nat)
    requires a <= b <= c <= d <= e <= |m|
    ensures m[a..e] == m[a..b] + m[b..c] + m[c..d] + m[d..e]
  {
    TwoSlices(m, a, d, e);
    TwoSlices(m, a, c, d);
    TwoSlices(m, a, b, c);
  }

  lemma TwoSlices(m: Bytes, a: nat, b: nat, c: nat)
    requires a <= b <= c <= |m|
    ensures m[a..c] == m[a..b] + m[b..c]
  {
    var s, t := m[a..c], m[a..b] + m[b..c];
    assert |s| == |t|;
    forall k | 0 <= k < |s|
      ensures s[k] == t[k]
    {
      assert s[k] == m[a + k];
    }
  }

  lemma HeaderPieces(i: Intent, m: Bytes)
    requires |m| == MESSAGE_LEN && m[16..88] == Header(i, SPEC_LEN)
    ensures m[16..20] == ToBytes(BURN_INTENT_MAGIC, 4) && m[20..52] == ToBytes(i.maxBlockHeight, 32)
    ensures m[52..84] == ToBytes(i.maxFee, 32) && m[84..88] == ToBytes(SPEC_LEN, 4)
  {
    FourPieces(m[16..88], ToBytes(BURN_INTENT_MAGIC, 4), ToBytes(i.maxBlockHeight, 32), ToBytes(i.maxFee, 32),
               ToBytes(SPEC_LEN, 4));
    SubSlice(m, 16, 88, 0, 4);
    SubSlice(m, 16, 88, 4, 36);
    SubSlice(m, 16, 88, 36, 68);
    SubSlice(m, 16, 88, 68, 72);
  }

  lemma SpecHeadPieces(i: Intent, m: Bytes)
    requires |m| == MESSAGE_LEN && m[88..104] == SpecHead(i)
    ensures m[88..92] == ToBytes(TRANSFER_SPEC_MAGIC, 4) && m[92..96] == ToBytes(i.version, 4)
    ensures m[96..100] == ToBytes(i.sourceDomain, 4) && m[100..104] == ToBytes(i.destinationDomain, 4)
  {
    FourPieces(m[88..104], ToBytes(TRANSFER_SPEC_MAGIC, 4), ToBytes(i.version, 4), ToBytes(i.sourceDomain, 4),
               ToBytes(i.destinationDomain, 4));
    SubSlice(m, 88, 104, 0, 4);
    SubSlice(m, 88, 104, 4, 8);
    SubSlice(m, 88, 104, 8, 12);
    SubSlice(m, 88, 104, 12, 16);
  }

  lemma SpecWordPieces(i: Intent, m: Bytes, k: nat)
    requires Fits(i) && |m| == MESSAGE_LEN && m[104..424] == Flatten(SpecWords(i)) && k < 10
    ensures SpecWordAt(m, k) == SpecWords(i)[k]
  {
    FlattenAt(SpecWords(i), k);
    SubSlice(m, 104, 424, 32 * k, 32 * k + 32);
  }

  lemma HeaderReads(i: Intent, m: Bytes)
    requires Fits(i) && |m| == MESSAGE_LEN && m[16..88] == Header(i, SPEC_LEN)
    ensures U32At(m, 16) == BURN_INTENT_MAGIC && U32At(m, 84) == SPEC_LEN
    ensures WordAt(m, 20) == ToBytes(i.maxBlockHeight, 32) && WordAt(m, 52) == ToBytes(i.maxFee, 32)
  {
    HeaderPieces(i, m);
    U32RoundTrip(BURN_INTENT_MAGIC);
    U32RoundTrip(SPEC_LEN);
  }

  lemma SpecHeadReads(i: Intent, m: Bytes)
    requires Fits(i) && |m| == MESSAGE_LEN && m[88..104] == SpecHead(i)
    ensures U32At(m, 88) == TRANSFER_SPEC_MAGIC && U32At(m, 92) == i.version
    ensures U32At(m, 96) == i.sourceDomain && U32At(m, 100) == i.destinationDomain
  {
    SpecHeadPieces(i, m);
    U32RoundTrip(TRANSFER_SPEC_MAGIC);
    U32RoundTrip(i.version);
    U32RoundTrip(i.sourceDomain);
    U32RoundTrip(i.destinationDomain);
  }

  ghost function DecodedOf(i: Intent): Decoded
    requires Fits(i)
  {
    Decoded(ToBytes(i.maxBlockHeight, 32), ToBytes(i.maxFee, 32), i.version, i.sourceDomain, i.destinationDomain,
            i.words, ToBytes(i.value, 32))
  }

  /** Decoding the domain prefix plus the encoding of any hook-free intent gives back every field. */
  lemma DecodeEncode(i: Intent)
    requires Fits(i) && i.hook == []
    ensures Message(i).Some? && Parse(Message(i).value) == Some(DecodedOf(i))
    ensures FromBytes(DecodedOf(i).maxBlockHeight) == i.maxBlockHeight
    ensures FromBytes(DecodedOf(i).maxFee) == i.maxFee && FromBytes(DecodedOf(i).value) == i.value
  {
    MessageOf(i);
    var m := Message(i).value;
    Layout(i, m);
    HeaderReads(i, m);
    SpecHeadReads(i, m);
    U32RoundTrip(0);
    DecodedWords(i, m);
    FromToBytes(i.maxBlockHeight, 32);
    FromToBytes(i.maxFee, 32);
    FromToBytes(i.value, 32);
  }

  lemma DecodedWords(i: Intent, m: Bytes)
    requires Fits(i) && |m| == MESSAGE_LEN && m[104..424] == Flatten(SpecWords(i))
    ensures seq(8, k requires 0 <= k < 8 => SpecWordAt(m, k)) == i.words && SpecWordAt(m, 8) == ToBytes(i.value, 32)
  {
    forall k | 0 <= k < 8
      ensures SpecWordAt(m, k) == i.words[k]
    {
      SpecWordPieces(i, m, k);
    }
    SpecWordPieces(i, m, 8);
  }

  /** A non-empty hook is always refused by the decoder. */
  lemma HooksAreRefused(i: Intent)
    requires i.hook != [] && Message(i).Some?
    ensures Parse(Message(i).value).None?
  {
  }

  // ---- Every accepted message is one encoding ----

  /** The intent a framed message encodes. */
  ghost function IntentIn(m: Bytes): Intent
    requires |m| == MESSAGE_LEN
  {
    Intent(FromBytes(WordAt(m, 20)), FromBytes(WordAt(m, 52)), U32At(m, 92), U32At(m, 96), U32At(m, 100),
           seq(8, k requires 0 <= k < 8 => SpecWordAt(m, k)), FromBytes(SpecWordAt(m, 8)), SpecWordAt(m, 9), [])
  }

  lemma U32Reads(m: Bytes, o: nat)
    requires o + 4 <= |m|
    ensures U32At(m, o) < U32 && ToBytes(U32At(m, o), 4) == m[o..o + 4]
  {
    FourBytes();
    ToFromBytes(m[o..o + 4]);
  }

  lemma WordReads(b: Bytes)
    requires |b| == 32
    ensures FromBytes(b) < Pow256(32) && ToBytes(FromBytes(b), 32) == b
  {
    ToFromBytes(b);
  }

  lemma U32Fits(m: Bytes, o: nat)
    requires o + 4 <= |m|
    ensures U32At(m, o) < U32
  {
    U32Reads(m, o);
  }

  lemma WordFits(b: Bytes)
    requires |b| == 32
    ensures FromBytes(b) < Pow256(32)
  {
    WordReads(b);
  }

  lemma IntentInFits(m: Bytes)
    requires |m| == MESSAGE_LEN
    ensures Fits(IntentIn(m))
  {
    AmountsInFit(m);
    NumbersInFit(m);
  }

  lemma AmountsInFit(m: Bytes)
    requires |m| == MESSAGE_LEN
    ensures var i := IntentIn(m); i.maxBlockHeight < Pow256(32) && i.maxFee < Pow256(32) && i.value < Pow256(32)
  {
    WordFits(WordAt(m, 20));
    WordFits(WordAt(m, 52));
    WordFits(SpecWordAt(m, 8));
  }

  lemma NumbersInFit(m: Bytes)
    requires |m| == MESSAGE_LEN
    ensures var i := IntentIn(m); IsU32(i.version) && IsU32(i.sourceDomain) && IsU32(i.destinationDomain)
  {
    U32Fits(m, 92);
    U32Fits(m, 96);
    U32Fits(m, 100);
  }

  lemma {:induction false} FlattenOfSlices(m: Bytes, ws: seq<Bytes>)
    requires |m| == 32 * |ws| && AllWords(ws) && forall k :: 0 <= k < |ws| ==> ws[k] == m[32 * k..32 * k + 32]
    ensures Flatten(ws) == m
  {
    if ws != [] {
      var n := |ws| - 1;
      forall k | 0 <= k < n
        ensures ws[..n][k] == m[..32 * n][32 * k..32 * k + 32]
      {
        assert ws[k] == m[32 * k..32 * k + 32];
      }
      FlattenOfSlices(m[..32 * n], ws[..n]);
      assert m == m[..32 * n] + m[32 * n..32 * n + 32];
    }
  }

  lemma SpecWordOf(m: Bytes, k: nat)
    requires |m| == MESSAGE_LEN && k < 10
    ensures SpecWords(IntentIn(m))[k] == SpecWordAt(m, k)
  {
    SpecWordsAt(IntentIn(m), k);
    if k == 8 {
      WordReads(SpecWordAt(m, 8));
    }
  }

  lemma SpecWordsAt(i: Intent, k: nat)
    requires |i.words| == 8 && k < 10
    ensures SpecWords(i)[k] == if k < 8 then i.words[k] else if k == 8 then ToBytes(i.value, 32) else i.salt
  {
  }

  lemma WordsOf(m: Bytes)
    requires |m| == MESSAGE_LEN
    ensures Flatten(SpecWords(IntentIn(m))) == m[104..424]
  {
    var ws := SpecWords(IntentIn(m));
    forall k | 0 <= k < 10
      ensures ws[k] == m[104..424][32 * k..32 * k + 32] && |ws[k]| == 32
    {
      SpecWordOf(m, k);
      SubSlice(m, 104, 424, 32 * k, 32 * k + 32);
    }
    FlattenOfSlices(m[104..424], ws);
  }

  lemma HeaderOf(m: Bytes)
    requires Frames(m)
    ensures Header(IntentIn(m), SPEC_LEN) == m[16..88]
  {
    WordReads(WordAt(m, 20));
    WordReads(WordAt(m, 52));
    U32Reads(m, 16);
    U32Reads(m, 84);
    FourSlices(m, 16, 20, 52, 84, 88);
  }

  lemma SpecHeadOf(m: Bytes)
    requires Frames(m)
    ensures SpecHead(IntentIn(m)) == m[88..104] && ToBytes(0, 4) == m[424..428]
  {
    U32Reads(m, 88);
    U32Reads(m, 92);
    U32Reads(m, 96);
    U32Reads(m, 100);
    U32Reads(m, 424);
    FourSlices(m, 88, 92, 96, 100, 104);
  }

  /** A message is accepted if and only if it is the encoding of a hook-free intent that fits. */
  lemma AcceptedIsAnEncoding(m: Bytes)
    requires Parse(m).Some?
    ensures Fits(IntentIn(m)) && IntentIn(m).hook == [] && Message(IntentIn(m)) == Some(m)
    ensures Parse(m) == Some(DecodedOf(IntentIn(m)))
  {
    var i := IntentIn(m);
    IntentInFits(m);
    WordsOf(m);
    HeaderOf(m);
    SpecHeadOf(m);
    MessageOf(i);
    Reassembled(m);
    DecodeEncode(i);
  }

  lemma Reassembled(m: Bytes)
    requires |m| == MESSAGE_LEN
    ensures m == m[..16] + (m[16..88] + (m[88..104] + m[104..424] + m[424..428] + []))
  {
    TwoSlices(m, 88, 424, 428);
    TwoSlices(m, 88, 104, 424);
    TwoSlices(m, 16, 88, 428);
    TwoSlices(m, 0, 16, 428);
    assert m[0..428] == m && m[0..16] == m[..16];
    assert m[88..104] + m[104..424] + m[424..428] + [] == m[88..428];
  }

  lemma SaltIn(i: Intent)
    requires Fits(i) && i.hook == [] && Message(i).Some?
    ensures |Message(i).value| == MESSAGE_LEN && SpecWordAt(Message(i).value, 9) == i.salt
  {
    Layout(i, Message(i).value);
    SpecWordPieces(i, Message(i).value, 9);
  }

  /** ... and of exactly one. */
  lemma EncodingIsInjective(a: Intent, b: Intent)
    requires Fits(a) && Fits(b) && a.hook == [] && b.hook == [] && Message(a) == Message(b)
    ensures a == b
  {
    DecodeEncode(a);
    DecodeEncode(b);
    SaltIn(a);
    SaltIn(b);
  }
}
