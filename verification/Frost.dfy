/**
 * The weighted FROST share map of tools/frost-delegate/src/main.rs: weights become share ranges at key generation, and
 * a signer list becomes the union of its owners' shares.
 */
module Frost {
  import opened Wrappers
  import opened Text

  /** `owners.json`: the share threshold and each owner's share identifiers. */
  datatype Owners = Owners(threshold: nat, shares: map<string, seq<nat>>)

  datatype Entry = Entry(name: string, weight: nat)

  /** The `u16` range; the released binary wraps around in it. */
  const U16 := 0x1_0000

  // ---- Reading `--owners A:2,B:1` ----

  /** `split_once(':')` */
  function SplitOnce(s: string, sep: char): Option<(string, string)> {
    if s == [] then None
    else if s[0] == sep then Some(("", s[1..]))
    else
      match SplitOnce(s[1..], sep)
      case None => None
      case Some((a, b)) => Some(([s[0]] + a, b))
  }

  function ParseEntry(part: string): (r: Option<Entry>)
    ensures r.Some? ==> 1 <= r.value.weight < U16
  {
    match SplitOnce(part, ':')
    case None => None
    case Some((name, weight)) =>
      var w := ParseUnsigned(weight, U16);
      if w.None? || w.value < 1 then None else Some(Entry(name, w.value))
  }

  /** Each part as an owner, where it can be read. */
  function ParseParts(parts: seq<string>): (r: seq<Option<Entry>>)
    ensures |r| == |parts|
    ensures forall i :: 0 <= i < |r| && r[i].Some? ==> 1 <= r[i].value.weight < U16
  {
    seq(|parts|, i requires 0 <= i < |parts| => ParseEntry(parts[i]))
  }

  predicate Readable(parsed: seq<Option<Entry>>) {
    forall i :: 0 <= i < |parsed| ==> parsed[i].Some?
  }

  function Entries(parsed: seq<Option<Entry>>): (r: seq<Entry>)
    requires Readable(parsed)
    ensures |r| == |parsed| && forall i :: 0 <= i < |r| ==> r[i] == parsed[i].value
  {
    seq(|parsed|, i requires 0 <= i < |parsed| => parsed[i].value)
  }

  predicate ValidEntries(entries: seq<Entry>) {
    forall i :: 0 <= i < |entries| ==> 1 <= entries[i].weight < U16
  }

  ghost predicate DistinctLabels(entries: seq<Entry>) {
    forall i, j :: 0 <= i < j < |entries| ==> entries[i].name != entries[j].name
  }

  // ---- Weights to shares ----

  /** `next` before entry `i`, in wrapping arithmetic. */
  function Start(entries: seq<Entry>, i: nat): (r: nat)
    requires i <= |entries|
    ensures r < U16
  {
    if i == 0 then 1 else (Start(entries, i - 1) + entries[i - 1].weight) % U16
  }

  function Sum(entries: seq<Entry>, i: nat): nat
    requires i <= |entries|
  {
    if i == 0 then 0 else Sum(entries, i - 1) + entries[i - 1].weight
  }

  /** `(lo..hi).collect()` */
  function Range(lo: nat, hi: nat): seq<nat> {
    if lo >= hi then [] else seq(hi - lo, i requires 0 <= i => lo + i)
  }

  function ShareMap(entries: seq<Entry>, n: nat): map<string, seq<nat>>
    requires n <= |entries|
  {
    if n == 0 then map[]
    else ShareMap(entries, n - 1)[entries[n - 1].name := Range(Start(entries, n - 1), Start(entries, n))]
  }

  /** `next - 1`, in wrapping arithmetic. */
  function TotalShares(entries: seq<Entry>): nat {
    (Start(entries, |entries|) + U16 - 1) % U16
  }

  lemma {:induction false} ShareMapKeys(entries: seq<Entry>, n: nat, name: string)
    requires n <= |entries|
    ensures name in ShareMap(entries, n) <==> exists i :: 0 <= i < n && entries[i].name == name
  {
    if n > 0 {
      ShareMapKeys(entries, n - 1, name);
    }
  }

  /** Looking a name up in the map built so far is the duplicate test. */
  lemma DuplicateTest(entries: seq<Entry>, i: nat)
    requires i < |entries| && DistinctLabels(entries[..i])
    ensures entries[i].name in ShareMap(entries, i) ==> !DistinctLabels(entries)
    ensures entries[i].name !in ShareMap(entries, i) ==> DistinctLabels(entries[..i + 1])
  {
    ShareMapKeys(entries, i, entries[i].name);
    assert entries[..i + 1] == entries[..i] + [entries[i]];
    if entries[i].name !in ShareMap(entries, i) {
      forall k | 0 <= k < i
        ensures entries[k].name != entries[i].name
      {
      }
    }
  }

  /** What key generation writes to `owners.json`, or nothing when it refuses. */
  ghost function DkgShares(parsed: seq<Option<Entry>>, threshold: nat): Option<Owners> {
    if Readable(parsed) && DistinctLabels(Entries(parsed)) && 2 <= threshold <= TotalShares(Entries(parsed))
    then Some(Owners(threshold, ShareMap(Entries(parsed), |parsed|)))
    else None
  }

  /** What the loop of `run_dkg` has built before part `i`. */
  ghost predicate Assigned(parsed: seq<Option<Entry>>, i: nat, next: nat, shares: map<string, seq<nat>>)
    requires i <= |parsed|
  {
    Readable(parsed) ==>
      && next == Start(Entries(parsed), i) && shares == ShareMap(Entries(parsed), i)
      && DistinctLabels(Entries(parsed)[..i])
  }

  lemma AssignedNext(parsed: seq<Option<Entry>>, i: nat, next: nat, shares: map<string, seq<nat>>)
    requires i < |parsed| && parsed[i].Some? && Assigned(parsed, i, next, shares)
    ensures var entry, end := parsed[i].value, (next + parsed[i].value.weight) % U16;
      && (entry.name in shares && Readable(parsed) ==> !DistinctLabels(Entries(parsed)))
      && (entry.name !in shares ==> Assigned(parsed, i + 1, end, shares[entry.name := Range(next, end)]))
  {
    if Readable(parsed) {
      DuplicateTest(Entries(parsed), i);
    }
  }

  /** The loop of `run_dkg` that turns weights into share ids. */
  method AssignRanges(parsed: seq<Option<Entry>>, threshold: nat) returns (r: Option<Owners>)
    requires threshold < U16
    ensures r == DkgShares(parsed, threshold)
  {
    var shares: map<string, seq<nat>> := map[];
    var next: nat := 1;
    for i := 0 to |parsed|
      invariant forall k :: 0 <= k < i ==> parsed[k].Some?
      invariant Assigned(parsed, i, next, shares)
    {
      if parsed[i].None? { return None; }
      AssignedNext(parsed, i, next, shares);
      var entry := parsed[i].value;
      if entry.name in shares { return None; }
      var end := (next + entry.weight) % U16;
      shares := shares[entry.name := Range(next, end)];
      next := end;
    }
    assert Entries(parsed)[..|parsed|] == Entries(parsed);
    var n := (next + U16 - 1) % U16;
    if threshold < 2 || threshold > n { return None; }
    return Some(Owners(threshold, shares));
  }

  /** The part of `run_dkg` before the key generation rounds. */
  method AssignShares(ownersSpec: string, threshold: nat) returns (r: Option<Owners>)
    requires threshold < U16
    ensures r == DkgShares(ParseParts(Split(ownersSpec, ',')), threshold)
  {
    r := AssignRanges(ParseParts(Split(ownersSpec, ',')), threshold);
  }

  /** The largest total weight whose shares can be numbered in `u16`: the counter itself must still fit. */
  const MAX_TOTAL := U16 - 2

  lemma {:induction false} SumMonotone(entries: seq<Entry>, i: nat, j: nat)
    requires i <= j <= |entries|
    ensures Sum(entries, i) <= Sum(entries, j)
  {
    if i < j {
      SumMonotone(entries, i, j - 1);
    }
  }

  lemma {:induction false} StartWithoutWrap(entries: seq<Entry>, i: nat)
    requires i <= |entries| && Sum(entries, i) <= MAX_TOTAL
    ensures Start(entries, i) == 1 + Sum(entries, i)
  {
    if i > 0 {
      StartWithoutWrap(entries, i - 1);
    }
  }

  lemma {:induction false} LookUp(entries: seq<Entry>, i: nat, n: nat)
    requires i < n <= |entries| && DistinctLabels(entries)
    ensures entries[i].name in ShareMap(entries, n)
    ensures ShareMap(entries, n)[entries[i].name] == Range(Start(entries, i), Start(entries, i + 1))
  {
    if i < n - 1 {
      LookUp(entries, i, n - 1);
    }
  }

  ghost predicate SharesMatchWeight(entries: seq<Entry>, i: nat)
    requires i < |entries|
  {
    && entries[i].name in ShareMap(entries, |entries|)
    && |ShareMap(entries, |entries|)[entries[i].name]| == entries[i].weight
  }

  ghost predicate SharesMatchWeights(entries: seq<Entry>) {
    forall i :: 0 <= i < |entries| ==> SharesMatchWeight(entries, i)
  }

  /** The first entry whose range wraps gets no share at all. */
  lemma {:induction false} WrapLosesShares(entries: seq<Entry>, n: nat) returns (i: nat)
    requires n <= |entries| && ValidEntries(entries) && Sum(entries, n) > MAX_TOTAL
    ensures i < n && Range(Start(entries, i), Start(entries, i + 1)) == []
  {
    if Sum(entries, n - 1) > MAX_TOTAL {
      i := WrapLosesShares(entries, n - 1);
    } else {
      i := n - 1;
      StartWithoutWrap(entries, i);
    }
  }

  /**
   * Every owner holds exactly as many shares as its weight if and only if the total weight is at most 65534. A total of
   * 65535 fits in `u16` as a number of shares but not as the counter one past the last share, which wraps to zero.
   */
  lemma ShareCountsMatchWeights(entries: seq<Entry>)
    requires ValidEntries(entries) && DistinctLabels(entries)
    ensures SharesMatchWeights(entries) <==> Sum(entries, |entries|) <= MAX_TOTAL
  {
    if Sum(entries, |entries|) <= MAX_TOTAL {
      forall i | 0 <= i < |entries|
        ensures SharesMatchWeight(entries, i)
      {
        CountWithoutWrap(entries, i);
      }
    } else {
      var i := WrapLosesShares(entries, |entries|);
      LookUp(entries, i, |entries|);
      assert !SharesMatchWeight(entries, i);
    }
  }

  lemma RangeLength(lo: nat, hi: nat)
    requires lo <= hi
    ensures |Range(lo, hi)| == hi - lo
  {
  }

  lemma CountWithoutWrap(entries: seq<Entry>, i: nat)
    requires DistinctLabels(entries) && Sum(entries, |entries|) <= MAX_TOTAL && i < |entries|
    ensures SharesMatchWeight(entries, i)
  {
    LookUp(entries, i, |entries|);
    BoundsWithoutWrap(entries, i);
    RangeLength(Start(entries, i), Start(entries, i + 1));
  }

  /** Without a wrap, an entry's range starts one past the sum before it. */
  lemma BoundsWithoutWrap(entries: seq<Entry>, i: nat)
    requires Sum(entries, |entries|) <= MAX_TOTAL && i < |entries|
    ensures Start(entries, i) == 1 + Sum(entries, i) && Start(entries, i + 1) == 1 + Sum(entries, i + 1)
    ensures Sum(entries, i + 1) == Sum(entries, i) + entries[i].weight
  {
    SumMonotone(entries, i + 1, |entries|);
    StartWithoutWrap(entries, i);
    StartWithoutWrap(entries, i + 1);
  }

  // ---- Signer lists to shares ----

  function SetOf(xs: seq<nat>): set<nat> {
    set x | x in xs
  }

  function Holdings(shares: map<string, seq<nat>>, labels: seq<string>): set<nat>
    requires forall k :: 0 <= k < |labels| ==> labels[k] in shares
  {
    set k, x | 0 <= k < |labels| && x in shares[labels[k]] :: x
  }

  /** The ids come back as a sorted vector; only their set and count matter. */
  method ResolveShares(owners: Owners, signers: string) returns (r: Option<set<nat>>)
    ensures var labels := Split(signers, ',');
      && (r.Some? <==> DistinctTexts(labels) && forall k :: 0 <= k < |labels| ==> labels[k] in owners.shares)
      && (r.Some? ==> r.value == Holdings(owners.shares, labels))
  {
    var labels := Split(signers, ',');
    var seen: set<string> := {};
    var ids: set<nat> := {};
    for i := 0 to |labels|
      invariant seen == set k | 0 <= k < i :: labels[k]
      invariant DistinctTexts(labels[..i])
      invariant forall k :: 0 <= k < i ==> labels[k] in owners.shares
      invariant ids == Holdings(owners.shares, labels[..i])
    {
      if labels[i] in seen {
        var k :| 0 <= k < i && labels[k] == labels[i];
        return None;
      }
      seen := seen + {labels[i]};
      if labels[i] !in owners.shares { return None; }
      assert labels[..i + 1] == labels[..i] + [labels[i]];
      HoldingsExtend(owners.shares, labels[..i], labels[i]);
      ids := ids + SetOf(owners.shares[labels[i]]);
    }
    assert labels[..|labels|] == labels;
    return Some(ids);
  }

  lemma HoldingsExtend(shares: map<string, seq<nat>>, labels: seq<string>, name: string)
    requires name in shares && forall k :: 0 <= k < |labels| ==> labels[k] in shares
    ensures Holdings(shares, labels + [name]) == Holdings(shares, labels) + SetOf(shares[name])
  {
    var all := labels + [name];
    forall x | x in Holdings(shares, labels) + SetOf(shares[name])
      ensures x in Holdings(shares, all)
    {
      if x in Holdings(shares, labels) {
        var k :| 0 <= k < |labels| && x in shares[labels[k]];
        assert all[k] == labels[k];
      } else {
        assert all[|labels|] == name;
      }
    }
    forall x | x in Holdings(shares, all)
      ensures x in Holdings(shares, labels) + SetOf(shares[name])
    {
      var k :| 0 <= k < |all| && x in shares[all[k]];
      if k < |labels| {
        assert x in shares[labels[k]];
      }
    }
  }

  datatype Decision = BadSigners | BelowThreshold(shares: nat) | Signs(shares: nat)

  /** The decision `sign` takes once the policy has accepted the message. */
  method DecideSigning(owners: Owners, signers: string) returns (d: Decision)
    ensures d == Decide(owners, Split(signers, ','))
  {
    var ids := ResolveShares(owners, signers);
    if ids.None? {
      return BadSigners;
    }
    if |ids.value| < owners.threshold {
      return BelowThreshold(|ids.value|);
    }
    return Signs(|ids.value|);
  }

  ghost function Decide(owners: Owners, labels: seq<string>): Decision {
    if !DistinctTexts(labels) || exists k :: 0 <= k < |labels| && labels[k] !in owners.shares then BadSigners
    else
      var n := |Holdings(owners.shares, labels)|;
      if n < owners.threshold then BelowThreshold(n) else Signs(n)
  }

  // ---- Shares are disjoint, so they add up ----

  lemma {:induction false} RangeCard(lo: nat, hi: nat)
    requires lo <= hi
    ensures |SetOf(Range(lo, hi))| == hi - lo
    ensures forall x :: x in Range(lo, hi) <==> (lo <= x < hi)
    decreases hi
  {
    forall x
      ensures x in Range(lo, hi) <==> (lo <= x < hi)
    {
      if lo <= x < hi {
        assert Range(lo, hi)[x - lo] == x;
      }
    }
    if lo < hi {
      RangeCard(lo, hi - 1);
      assert SetOf(Range(lo, hi)) == SetOf(Range(lo, hi - 1)) + {hi - 1};
    }
  }

  lemma RangesDisjoint(entries: seq<Entry>, i: nat, j: nat, x: nat)
    requires ValidEntries(entries) && Sum(entries, |entries|) <= MAX_TOTAL && i < |entries| && j < |entries| && i != j
    requires x in Range(Start(entries, i), Start(entries, i + 1))
    ensures x !in Range(Start(entries, j), Start(entries, j + 1))
  {
    BoundsWithoutWrap(entries, i);
    BoundsWithoutWrap(entries, j);
    InRange(Start(entries, i), Start(entries, i + 1), x);
    InRange(Start(entries, j), Start(entries, j + 1), x);
    if i < j {
      SumMonotone(entries, i + 1, j);
    } else {
      SumMonotone(entries, j + 1, i);
    }
  }

  lemma InRange(lo: nat, hi: nat, x: nat)
    requires lo <= hi
    ensures x in Range(lo, hi) <==> lo <= x < hi
  {
    RangeCard(lo, hi);
  }

  ghost predicate FromDkg(entries: seq<Entry>, shares: map<string, seq<nat>>) {
    && ValidEntries(entries) && DistinctLabels(entries) && Sum(entries, |entries|) <= MAX_TOTAL
    && shares == ShareMap(entries, |entries|)
  }

  lemma IndexOf(entries: seq<Entry>, shares: map<string, seq<nat>>, name: string) returns (i: nat)
    requires FromDkg(entries, shares) && name in shares
    ensures i < |entries| && entries[i].name == name && shares[name] == Range(Start(entries, i), Start(entries, i + 1))
  {
    ShareMapKeys(entries, |entries|, name);
    i :| 0 <= i < |entries| && entries[i].name == name;
    LookUp(entries, i, |entries|);
  }

  lemma HolderIsEntry(entries: seq<Entry>, shares: map<string, seq<nat>>, name: string) returns (i: nat)
    requires FromDkg(entries, shares) && name in shares
    ensures i < |entries| && entries[i].name == name && |shares[name]| == entries[i].weight >= 1
  {
    i := IndexOf(entries, shares, name);
    BoundsWithoutWrap(entries, i);
    RangeLength(Start(entries, i), Start(entries, i + 1));
  }

  lemma OwnSharesCard(entries: seq<Entry>, shares: map<string, seq<nat>>, name: string)
    requires FromDkg(entries, shares) && name in shares
    ensures |SetOf(shares[name])| == |shares[name]|
  {
    var i := IndexOf(entries, shares, name);
    BoundsWithoutWrap(entries, i);
    RangeLength(Start(entries, i), Start(entries, i + 1));
    RangeCard(Start(entries, i), Start(entries, i + 1));
  }

  lemma NewLabelIsDisjoint(entries: seq<Entry>, shares: map<string, seq<nat>>, labels: seq<string>, name: string)
    requires FromDkg(entries, shares) && name in shares && name !in labels
    requires forall k :: 0 <= k < |labels| ==> labels[k] in shares
    ensures Holdings(shares, labels) !! SetOf(shares[name])
  {
    var j := IndexOf(entries, shares, name);
    forall x | x in Holdings(shares, labels)
      ensures x !in shares[name]
    {
      var k :| 0 <= k < |labels| && x in shares[labels[k]];
      var i := IndexOf(entries, shares, labels[k]);
      RangesDisjoint(entries, i, j, x);
    }
  }

  function ShareCount(shares: map<string, seq<nat>>, labels: seq<string>): nat
    requires forall k :: 0 <= k < |labels| ==> labels[k] in shares
  {
    if labels == [] then 0
    else ShareCount(shares, labels[..|labels| - 1]) + |shares[labels[|labels| - 1]]|
  }

  /** Distinct owners never share a share: the resolved ids number the sum of their holdings. */
  lemma {:induction false} HoldingsAddUp(entries: seq<Entry>, shares: map<string, seq<nat>>, labels: seq<string>)
    requires FromDkg(entries, shares) && DistinctTexts(labels) && forall k :: 0 <= k < |labels| ==> labels[k] in shares
    ensures |Holdings(shares, labels)| == ShareCount(shares, labels)
  {
    if labels == [] {
      assert Holdings(shares, labels) == {};
    } else {
      var init, last := labels[..|labels| - 1], labels[|labels| - 1];
      HoldingsAddUp(entries, shares, init);
      assert labels == init + [last];
      HoldingsExtend(shares, init, last);
      NewLabelIsDisjoint(entries, shares, init, last);
      OwnSharesCard(entries, shares, last);
    }
  }

  // ---- Names survive the trip through a comma-separated list ----

  lemma {:induction false} SplitOnceRejoins(s: string, sep: char)
    requires SplitOnce(s, sep).Some?
    ensures s == SplitOnce(s, sep).value.0 + [sep] + SplitOnce(s, sep).value.1
  {
    if s[0] != sep {
      SplitOnceRejoins(s[1..], sep);
      assert s == [s[0]] + s[1..];
    }
  }

  lemma DkgNamesHaveNoComma(ownersSpec: string, i: nat)
    requires var parsed := ParseParts(Split(ownersSpec, ',')); Readable(parsed) && i < |parsed|
    ensures ',' !in Entries(ParseParts(Split(ownersSpec, ',')))[i].name
  {
    var part := Split(ownersSpec, ',')[i];
    SplitPartsAreClean(ownersSpec, ',');
    assert ParseEntry(part) == ParseParts(Split(ownersSpec, ','))[i];
    SplitOnceRejoins(part, ':');
  }
}
