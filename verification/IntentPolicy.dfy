/**
 * The policy coordinator of tools/frost-delegate/src/main.rs: `check_policy` on a decoded burn intent, and what the
 * whole of decode-then-check accepts.
 */
module IntentPolicy {
  import opened Wrappers
  import opened Text
  import opened BigEndian
  import opened BurnIntent

  const SOLANA_DOMAIN: nat := 5
  const U64: nat := 0x1_0000_0000_0000_0000

  datatype Destination = Destination(
    domain: nat, minter: string, token: string, recipients: seq<string>, callers: seq<string>)

  /** `policy.json`: words are hex text, amounts decimal text. */
  datatype Policy = Policy(
    depositor: string,
    sourceDomain: nat,
    sourceContract: string,
    sourceToken: string,
    perIntentCap: string,
    maxFeeCap: string,
    maxExpirySlots: nat,
    destinations: seq<Destination>)

  // ---- Reading the policy ----

  /** `trim_start_matches("0x")`: every leading repetition goes. */
  function TrimPrefix(s: string): string {
    if |s| >= 2 && s[0] == '0' && s[1] == 'x' then TrimPrefix(s[2..]) else s
  }

  function HexDigit(c: char): (r: Option<nat>)
    ensures r.Some? ==> r.value < 16
  {
    if '0' <= c <= '9' then Some((c - '0') as int)
    else if 'a' <= c <= 'f' then Some((c - 'a') as int + 10)
    else if 'A' <= c <= 'F' then Some((c - 'A') as int + 10)
    else None
  }

  function HexDecode(s: string): Option<Bytes> {
    if s == "" then Some([])
    else if |s| == 1 then None
    else
      var hi, lo := HexDigit(s[0]), HexDigit(s[1]);
      var rest := HexDecode(s[2..]);
      if hi.None? || lo.None? || rest.None? then None
      else Some([16 * hi.value + lo.value] + rest.value)
  }

  /** `parse_hex32` */
  function Word(s: string): (r: Option<Bytes>)
    ensures r.Some? ==> |r.value| == 32
  {
    match HexDecode(TrimPrefix(s))
    case Some(b) => if |b| == 32 then Some(b) else None
    case None => None
  }

  function Amount(s: string): (r: Option<nat>) {
    ParseUnsigned(s, Pow256(16))
  }

  // ---- The checks ----

  predicate Zeros(w: Bytes) {
    forall k :: 0 <= k < |w| ==> w[k] == 0
  }

  /** `word_u128`: the word as a number, when its upper half is zero. */
  function WordU128(w: Bytes): Option<nat>
    requires |w| == 32
  {
    if Zeros(w[..16]) then Some(FromBytes(w[16..])) else None
  }

  predicate IsCanonicalEvm(w: Bytes)
    requires |w| == 32
  {
    Zeros(w[..12]) && !Zeros(w)
  }

  predicate MatchesDomainShape(domain: nat, w: Bytes)
    requires |w| == 32
  {
    if domain == SOLANA_DOMAIN then !Zeros(w[..12]) else IsCanonicalEvm(w)
  }

  /** `in_set`: the first unreadable word before a match is an error, which refuses the intent. */
  function InSet(w: Bytes, words: seq<string>): Option<bool> {
    if words == [] then Some(false)
    else
      match Word(words[0])
      case None => None
      case Some(x) => if x == w then Some(true) else InSet(w, words[1..])
  }

  function FindDestination(ds: seq<Destination>, domain: nat): Option<Destination> {
    if ds == [] then None
    else if ds[0].domain == domain then Some(ds[0])
    else FindDestination(ds[1..], domain)
  }

  predicate SourceOk(d: Decoded, p: Policy, groupKey: Bytes)
    requires |d.words| == 8
  {
    && d.version == 1
    && d.sourceDomain == p.sourceDomain
    && Word(p.sourceContract) == Some(d.words[0])
    && Word(p.sourceToken) == Some(d.words[2])
    && Word(p.depositor) == Some(d.words[4])
    && d.words[6] == groupKey
  }

  predicate ValueOk(w: Bytes, cap: nat)
    requires |w| == 32
  {
    var value := WordU128(w);
    value.Some? && !(value.value == 0 || value.value > cap)
  }

  predicate FeeOk(w: Bytes, cap: nat)
    requires |w| == 32
  {
    var fee := WordU128(w);
    fee.Some? && !(fee.value > cap)
  }

  predicate HeightOk(w: Bytes, slot: nat, slots: nat)
    requires |w| == 32
  {
    var height := WordU128(w);
    height.Some? && !(height.value <= slot || height.value - slot > slots)
  }

  predicate AmountsOk(d: Decoded, p: Policy, slot: nat)
    requires |d.maxBlockHeight| == |d.maxFee| == |d.value| == 32
  {
    var cap, feeCap := Amount(p.perIntentCap), Amount(p.maxFeeCap);
    && cap.Some? && feeCap.Some?
    && ValueOk(d.value, cap.value) && FeeOk(d.maxFee, feeCap.value)
    && HeightOk(d.maxBlockHeight, slot, p.maxExpirySlots)
  }

  predicate DestinationOk(d: Decoded, p: Policy)
    requires |d.words| == 8 && |d.words[5]| == 32 && |d.words[7]| == 32
  {
    match FindDestination(p.destinations, d.destinationDomain)
    case None => false
    case Some(t) =>
      && Word(t.minter) == Some(d.words[1])
      && Word(t.token) == Some(d.words[3])
      && MatchesDomainShape(t.domain, d.words[5]) && InSet(d.words[5], t.recipients) == Some(true)
      && (Zeros(d.words[7]) || (MatchesDomainShape(t.domain, d.words[7]) && InSet(d.words[7], t.callers) == Some(true)))
  }

  /** `check_policy` returns `Ok`. */
  predicate CheckPolicy(d: Decoded, p: Policy, groupKey: Bytes, slot: nat)
    requires |d.maxBlockHeight| == |d.maxFee| == |d.value| == 32
    requires |d.words| == 8 && |d.words[5]| == 32 && |d.words[7]| == 32
  {
    SourceOk(d, p, groupKey) && AmountsOk(d, p, slot) && DestinationOk(d, p)
  }

  /** The part of `sign` before any share is touched. */
  method Approves(m: Bytes, p: Policy, groupKey: Bytes, slot: nat) returns (ok: bool)
    ensures ok == CoordinatorAccepts(m, p, groupKey, slot)
  {
    var d := ParseMessage(m);
    if d.None? { return false; }
    return CheckPolicy(d.value, p, groupKey, slot);
  }

  ghost predicate CoordinatorAccepts(m: Bytes, p: Policy, groupKey: Bytes, slot: nat) {
    Parse(m).Some? && CheckPolicy(Parse(m).value, p, groupKey, slot)
  }

  // ---- What is accepted, in the policy's own terms ----

  ghost predicate WellFormed(p: Policy) {
    && Amount(p.perIntentCap).Some? && Amount(p.maxFeeCap).Some?
    && p.maxExpirySlots < U64
    && (forall i, j :: 0 <= i < j < |p.destinations| ==> p.destinations[i].domain != p.destinations[j].domain)
    && (forall i :: 0 <= i < |p.destinations| ==> ReadableDestination(p.destinations[i]))
  }

  ghost predicate ReadableDestination(t: Destination) {
    && (forall k :: 0 <= k < |t.recipients| ==> Word(t.recipients[k]).Some?)
    && (forall k :: 0 <= k < |t.callers| ==> Word(t.callers[k]).Some?)
  }

  ghost predicate Lists(words: seq<string>, w: Bytes) {
    exists k :: 0 <= k < |words| && Word(words[k]) == Some(w)
  }

  /** `t` lets money go where `i` sends it. */
  ghost predicate Allows(t: Destination, i: Intent)
    requires Fits(i)
  {
    && t.domain == i.destinationDomain
    && Word(t.minter) == Some(i.words[1])
    && Word(t.token) == Some(i.words[3])
    && MatchesDomainShape(t.domain, i.words[5]) && Lists(t.recipients, i.words[5])
    && (Zeros(i.words[7]) || (MatchesDomainShape(t.domain, i.words[7]) && Lists(t.callers, i.words[7])))
  }

  /** The policy, read as a rule about the intent's own numbers and words. */
  ghost predicate Permits(p: Policy, groupKey: Bytes, slot: nat, i: Intent)
    requires Fits(i) && Amount(p.perIntentCap).Some? && Amount(p.maxFeeCap).Some?
  {
    && i.version == 1
    && i.sourceDomain == p.sourceDomain
    && Word(p.sourceContract) == Some(i.words[0])
    && Word(p.sourceToken) == Some(i.words[2])
    && Word(p.depositor) == Some(i.words[4])
    && i.words[6] == groupKey
    && 0 < i.value <= Amount(p.perIntentCap).value
    && i.maxFee <= Amount(p.maxFeeCap).value
    && slot < i.maxBlockHeight <= slot + p.maxExpirySlots
    && (exists k :: 0 <= k < |p.destinations| && Allows(p.destinations[k], i))
  }

  // ---- Proof ----

  lemma {:induction false} InSetMeansListed(w: Bytes, words: seq<string>)
    requires forall k :: 0 <= k < |words| ==> Word(words[k]).Some?
    ensures InSet(w, words) == Some(Lists(words, w))
  {
    if words != [] {
      var rest := words[1..];
      InSetMeansListed(w, rest);
      if Lists(rest, w) {
        var k :| 0 <= k < |rest| && Word(rest[k]) == Some(w);
        assert words[k + 1] == rest[k];
      }
      if Lists(words, w) && Word(words[0]) != Some(w) {
        var k :| 0 <= k < |words| && Word(words[k]) == Some(w);
        assert rest[k - 1] == words[k];
      }
    }
  }

  lemma {:induction false} FindsTheDomain(ds: seq<Destination>, domain: nat, k: nat)
    requires k < |ds| && ds[k].domain == domain
    requires forall i, j :: 0 <= i < j < |ds| ==> ds[i].domain != ds[j].domain
    ensures FindDestination(ds, domain) == Some(ds[k])
  {
    if k > 0 {
      assert ds[0].domain != ds[k].domain;
      FindsTheDomain(ds[1..], domain, k - 1);
    }
  }

  lemma {:induction false} FoundIsListed(ds: seq<Destination>, domain: nat) returns (k: nat)
    requires FindDestination(ds, domain).Some?
    ensures k < |ds| && ds[k] == FindDestination(ds, domain).value && ds[k].domain == domain
  {
    if ds[0].domain == domain {
      k := 0;
    } else {
      k := FoundIsListed(ds[1..], domain);
      k := k + 1;
    }
  }

  lemma {:induction false} ZeroBytes(b: Bytes)
    ensures Zeros(b) <==> FromBytes(b) == 0
  {
    if b != [] {
      ZeroBytes(b[..|b| - 1]);
      assert Zeros(b) <==> Zeros(b[..|b| - 1]) && b[|b| - 1] == 0;
    }
  }

  lemma {:induction false} ReadConcat(a: Bytes, b: Bytes)
    ensures FromBytes(a + b) == FromBytes(a) * Pow256(|b|) + FromBytes(b)
  {
    if b == [] {
      assert a + b == a;
    } else {
      var init := b[..|b| - 1];
      ReadConcat(a, init);
      assert (a + b)[..|a + b| - 1] == a + init;
      Rescale(FromBytes(a), Pow256(|init|), FromBytes(init));
    }
  }

  lemma Rescale(x: nat, p: nat, y: nat)
    ensures 256 * (x * p + y) == x * (256 * p) + 256 * y
  {
  }

  lemma OnlyLowHalf(hi: nat, p: nat, lo: nat)
    requires lo < p
    ensures hi * p + lo < p <==> hi == 0
    ensures hi == 0 ==> hi * p + lo == lo
  {
    if hi > 0 {
      assert hi * p >= p;
    }
  }

  /** Two byte strings joined stay below the first one's place exactly when it is all zero. */
  lemma HighBytesZero(hi: Bytes, lo: Bytes)
    ensures Zeros(hi) <==> FromBytes(hi + lo) < Pow256(|lo|)
    ensures Zeros(hi) ==> FromBytes(lo) == FromBytes(hi + lo)
  {
    ReadConcat(hi, lo);
    ZeroBytes(hi);
    ToFromBytes(lo);
    OnlyLowHalf(FromBytes(hi), Pow256(|lo|), FromBytes(lo));
  }

  /** A word fits in 128 bits exactly when its upper half is zero, and then its lower half is its value. */
  lemma WordU128Reads(w: Bytes)
    requires |w| == 32
    ensures WordU128(w).Some? <==> FromBytes(w) < Pow256(16)
    ensures WordU128(w).Some? ==> WordU128(w).value == FromBytes(w)
  {
    HighBytesZero(w[..16], w[16..]);
    assert w == w[..16] + w[16..];
  }

  /** So an encoded amount is read exactly, or refused. */
  lemma AmountReads(v: int)
    requires 0 <= v < Pow256(32)
    ensures WordU128(ToBytes(v, 32)) == if v < Pow256(16) then Some(v) else None
  {
    FromToBytes(v, 32);
    WordU128Reads(ToBytes(v, 32));
  }

  lemma SlotsFit(slot: nat, slots: nat)
    requires slot < U64 && slots < U64
    ensures slot + slots < Pow256(16)
  {
    assert Pow256(16) > 2 * U64;
  }

  /** The word reads as `v`, unless it is not below `bound`. */
  predicate Reads(w: Bytes, v: nat, bound: nat)
    requires |w| == 32
  {
    WordU128(w) == if v < bound then Some(v) else None
  }

  lemma LimitsMeanNumbers(w: Bytes, v: nat, bound: nat, cap: nat, slot: nat, slots: nat)
    requires |w| == 32 && Reads(w, v, bound) && cap < bound && slot + slots < bound
    ensures ValueOk(w, cap) <==> 0 < v <= cap
    ensures FeeOk(w, cap) <==> v <= cap
    ensures HeightOk(w, slot, slots) <==> slot < v <= slot + slots
  {
  }

  lemma ReadsAmount(v: int)
    requires 0 <= v < Pow256(32)
    ensures Reads(ToBytes(v, 32), v, Pow256(16))
  {
    AmountReads(v);
  }

  lemma AmountFits(s: string)
    ensures Amount(s).Some? ==> Amount(s).value < Pow256(16)
  {
  }

  lemma ValueMeans(i: Intent, cap: string)
    requires Fits(i) && Amount(cap).Some?
    ensures ValueOk(DecodedOf(i).value, Amount(cap).value) <==> 0 < i.value <= Amount(cap).value
  {
    AmountFits(cap);
    ReadsAmount(i.value);
    LimitsMeanNumbers(DecodedOf(i).value, i.value, Pow256(16), Amount(cap).value, 0, 0);
  }

  lemma FeeMeans(i: Intent, cap: string)
    requires Fits(i) && Amount(cap).Some?
    ensures FeeOk(DecodedOf(i).maxFee, Amount(cap).value) <==> i.maxFee <= Amount(cap).value
  {
    AmountFits(cap);
    ReadsAmount(i.maxFee);
    LimitsMeanNumbers(DecodedOf(i).maxFee, i.maxFee, Pow256(16), Amount(cap).value, 0, 0);
  }

  lemma HeightMeans(i: Intent, slot: nat, slots: nat)
    requires Fits(i) && slot < U64 && slots < U64
    ensures HeightOk(DecodedOf(i).maxBlockHeight, slot, slots) <==> slot < i.maxBlockHeight <= slot + slots
  {
    SlotsFit(slot, slots);
    ReadsAmount(i.maxBlockHeight);
    LimitsMeanNumbers(DecodedOf(i).maxBlockHeight, i.maxBlockHeight, Pow256(16), 0, slot, slots);
  }

  lemma AmountsMeanNumbers(i: Intent, p: Policy, slot: nat)
    requires Fits(i) && WellFormed(p) && slot < U64
    ensures AmountsOk(DecodedOf(i), p, slot)
       <==> && 0 < i.value <= Amount(p.perIntentCap).value
            && i.maxFee <= Amount(p.maxFeeCap).value
            && slot < i.maxBlockHeight <= slot + p.maxExpirySlots
  {
    ValueMeans(i, p.perIntentCap);
    FeeMeans(i, p.maxFeeCap);
    HeightMeans(i, slot, p.maxExpirySlots);
  }

  lemma DestinationMeansAllowed(i: Intent, p: Policy)
    requires Fits(i) && WellFormed(p)
    ensures DestinationOk(DecodedOf(i), p) <==> exists k :: 0 <= k < |p.destinations| && Allows(p.destinations[k], i)
  {
    if FindDestination(p.destinations, i.destinationDomain).Some? {
      var k := FoundIsListed(p.destinations, i.destinationDomain);
      SameVerdict(p.destinations[k], i);
      assert DestinationOk(DecodedOf(i), p) <==> Allows(p.destinations[k], i);
    }
    if k :| 0 <= k < |p.destinations| && Allows(p.destinations[k], i) {
      FindsTheDomain(p.destinations, i.destinationDomain, k);
      SameVerdict(p.destinations[k], i);
    }
  }

  lemma SameVerdict(t: Destination, i: Intent)
    requires Fits(i) && ReadableDestination(t)
    ensures InSet(i.words[5], t.recipients) == Some(Lists(t.recipients, i.words[5]))
    ensures InSet(i.words[7], t.callers) == Some(Lists(t.callers, i.words[7]))
  {
    InSetMeansListed(i.words[5], t.recipients);
    InSetMeansListed(i.words[7], t.callers);
  }

  lemma PolicyMeansPermission(i: Intent, p: Policy, groupKey: Bytes, slot: nat)
    requires Fits(i) && WellFormed(p) && slot < U64
    ensures CheckPolicy(DecodedOf(i), p, groupKey, slot) <==> Permits(p, groupKey, slot, i)
  {
    AmountsMeanNumbers(i, p, slot);
    DestinationMeansAllowed(i, p);
  }

  ghost predicate EncodesPermitted(m: Bytes, p: Policy, groupKey: Bytes, slot: nat, i: Intent) {
    && Fits(i) && i.hook == [] && Message(i) == Some(m)
    && Amount(p.perIntentCap).Some? && Amount(p.maxFeeCap).Some? && Permits(p, groupKey, slot, i)
  }

  /**
   * The coordinator goes on to sign a message if and only if the message is the encoding of a hook-free intent that
   * the policy permits, judged on the intent's full 256-bit numbers.
   */
  lemma CoordinatorAcceptsExactlyThePermitted(m: Bytes, p: Policy, groupKey: Bytes, slot: nat)
    requires WellFormed(p) && slot < U64
    ensures CoordinatorAccepts(m, p, groupKey, slot) <==> exists i :: EncodesPermitted(m, p, groupKey, slot, i)
  {
    if CoordinatorAccepts(m, p, groupKey, slot) {
      AcceptedIsAnEncoding(m);
      PolicyMeansPermission(IntentIn(m), p, groupKey, slot);
      assert EncodesPermitted(m, p, groupKey, slot, IntentIn(m));
    }
    if i :| EncodesPermitted(m, p, groupKey, slot, i) {
      DecodeEncode(i);
      PolicyMeansPermission(i, p, groupKey, slot);
    }
  }

  /** Whatever the policy file says, nothing outside one of its destinations' lists is ever accepted. */
  lemma AcceptedRecipientIsListed(m: Bytes, p: Policy, groupKey: Bytes, slot: nat)
    requires CoordinatorAccepts(m, p, groupKey, slot)
    ensures exists k :: 0 <= k < |p.destinations| && p.destinations[k].domain == Parse(m).value.destinationDomain
              && Lists(p.destinations[k].recipients, Parse(m).value.words[5])
  {
    var d := Parse(m).value;
    var k := FoundIsListed(p.destinations, d.destinationDomain);
    FoundInSet(d.words[5], p.destinations[k].recipients);
  }

  lemma {:induction false} FoundInSet(w: Bytes, words: seq<string>)
    requires InSet(w, words) == Some(true)
    ensures Lists(words, w)
  {
    if Word(words[0]) != Some(w) {
      FoundInSet(w, words[1..]);
      var k :| 0 <= k < |words[1..]| && Word(words[1..][k]) == Some(w);
      assert words[k + 1] == words[1..][k];
    } else {
      assert Word(words[0]) == Some(w);
    }
  }
}
