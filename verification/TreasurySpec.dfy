/**
 * The chain-neutral treasury spec of packages/weighted-treasury/src: its validation (validate.ts), its EVM compilation
 * (evm.ts) and the reference verdict on a spend (judge.ts).
 */
module TreasurySpec {
  import opened Wrappers
  import opened Text
  import opened WeightedRule
  import Coalitions

  datatype Owner = Owner(id: string, weight: int, evm: Option<string>, solana: Option<string>)

  datatype Recipient = Recipient(evm: Option<string>, solana: Option<string>)

  datatype Budget = Budget(maxPerPeriod: int, maxPerUse: Option<int>, customSeconds: Option<int>)

  datatype Asset = Asset(symbol: string, budget: Option<Budget>)

  datatype Spec = Spec(
    version: int,
    owners: seq<Owner>,
    thresholdWeight: int,
    allowlist: seq<Recipient>,
    assets: seq<Asset>,
    adminTimelockSeconds: int)

  const MAX_WEIGHT := 1_000_000
  const MAX_EVM_OWNERS := 1000

  // ---- Validation ----

  predicate IsHexDigit(c: char) {
    '0' <= c <= '9' || 'a' <= c <= 'f' || 'A' <= c <= 'F'
  }

  predicate IsBase58Digit(c: char) {
    '1' <= c <= '9' || ('A' <= c <= 'Z' && c != 'I' && c != 'O') || ('a' <= c <= 'z' && c != 'l')
  }

  predicate IsEvmAddress(s: string) {
    |s| == 42 && s[..2] == "0x" && forall i :: 2 <= i < |s| ==> IsHexDigit(s[i])
  }

  predicate IsSolanaKey(s: string) {
    32 <= |s| <= 44 && forall i :: 0 <= i < |s| ==> IsBase58Digit(s[i])
  }

  predicate ValidOwner(o: Owner) {
    && 1 <= o.weight <= MAX_WEIGHT
    && (o.evm.Some? ==> IsEvmAddress(o.evm.value))
    && (o.solana.Some? ==> IsSolanaKey(o.solana.value))
  }

  predicate ValidAsset(a: Asset) {
    a.budget.Some? ==>
      var b := a.budget.value;
      && b.maxPerPeriod > 0
      && (b.maxPerUse.Some? ==> 0 < b.maxPerUse.value <= b.maxPerPeriod)
      && (b.customSeconds.Some? ==> b.customSeconds.value > 0)
  }

  function Members(owners: seq<Owner>): (r: seq<Member>)
    ensures |r| == |owners|
  {
    seq(|owners|, i requires 0 <= i < |owners| => Member(owners[i].id, owners[i].weight))
  }

  function Total(owners: seq<Owner>, n: nat): int
    requires n <= |owners|
  {
    if n == 0 then 0 else Total(owners, n - 1) + owners[n - 1].weight
  }

  ghost predicate DistinctOwnerIds(owners: seq<Owner>) {
    forall i, j :: 0 <= i < j < |owners| ==> owners[i].id != owners[j].id
  }

  /** What every compiler may rely on. */
  ghost predicate ValidSpec(s: Spec) {
    && s.version == 1
    && s.owners != []
    && DistinctOwnerIds(s.owners)
    && (forall i :: 0 <= i < |s.owners| ==> ValidOwner(s.owners[i]))
    && 1 <= s.thresholdWeight <= Total(s.owners, |s.owners|)
    && s.allowlist != []
    && s.assets != []
    && (forall i :: 0 <= i < |s.assets| ==> ValidAsset(s.assets[i]))
    && 0 <= s.adminTimelockSeconds <= 0xffff_ffff
  }

  /** The owner loop: the first problem stops it. */
  method ValidateOwners(owners: seq<Owner>) returns (ok: bool, total: int)
    ensures ok <==> DistinctOwnerIds(owners) && forall i :: 0 <= i < |owners| ==> ValidOwner(owners[i])
    ensures ok ==> total == Total(owners, |owners|)
  {
    var ids: set<string> := {};
    total := 0;
    for i := 0 to |owners|
      invariant ids == set k | 0 <= k < i :: owners[k].id
      invariant total == Total(owners, i)
      invariant DistinctOwnerIds(owners[..i])
      invariant forall k :: 0 <= k < i ==> ValidOwner(owners[k])
    {
      if owners[i].id in ids {
        var k :| 0 <= k < i && owners[k].id == owners[i].id;
        return false, total;
      }
      ids := ids + {owners[i].id};
      if !ValidOwner(owners[i]) {
        return false, total;
      }
      assert owners[..i + 1] == owners[..i] + [owners[i]];
      total := total + owners[i].weight;
    }
    assert owners[..|owners|] == owners;
    return true, total;
  }

  method ValidateSpec(s: Spec) returns (problem: Option<string>)
    ensures problem.None? <==> ValidSpec(s)
  {
    if s.version != 1 { return Some("unsupported spec version"); }
    if s.owners == [] { return Some("at least one owner is required"); }
    var ok, total := ValidateOwners(s.owners);
    if !ok { return Some("owner"); }
    if s.thresholdWeight < 1 || s.thresholdWeight > total { return Some("thresholdWeight"); }
    if s.allowlist == [] { return Some("allowlist must not be empty"); }
    if s.assets == [] { return Some("at least one asset is required"); }
    for i := 0 to |s.assets|
      invariant forall k :: 0 <= k < i ==> ValidAsset(s.assets[k])
    {
      if !ValidAsset(s.assets[i]) { return Some("budget"); }
    }
    if s.adminTimelockSeconds < 0 || s.adminTimelockSeconds > 0xffff_ffff { return Some("adminTimelockSeconds"); }
    return None;
  }

  lemma {:induction false} EveryoneWeighsTotal(owners: seq<Owner>, chosen: set<nat>, n: nat)
    requires n <= |owners| && forall i: nat :: i < n ==> i in chosen
    ensures WeightAt(Members(owners), chosen, n) == Total(owners, n)
  {
    if n > 0 {
      EveryoneWeighsTotal(owners, chosen, n - 1);
    }
  }

  /**
   * A valid spec gives the compilers what they need: distinct ids, positive weights, and a threshold everyone
   * together meets.
   */
  lemma ValidSpecCanBeMet(s: Spec)
    requires ValidSpec(s)
    ensures DistinctIds(Members(s.owners)) && NonNegative(Members(s.owners)) && s.thresholdWeight >= 1
    ensures Wins(Members(s.owners), s.thresholdWeight, set i | 0 <= i < |s.owners| :: s.owners[i].id)
  {
    var all := set i | 0 <= i < |s.owners| :: s.owners[i].id;
    EveryoneWeighsTotal(s.owners, Positions(Members(s.owners), all), |s.owners|);
  }

  /**
   * The coalitions compiled from a valid spec are at least one, and mean the spec: an approver set reaches the
   * threshold if and only if it contains one of them.
   */
  lemma ValidSpecCompilesToCoalitions(s: Spec, masks: seq<nat>, lists: seq<seq<string>>, approvers: set<string>)
    requires ValidSpec(s) && Coalitions.IsCoalitionList(Members(s.owners), s.thresholdWeight, masks, lists)
    ensures lists != []
    ensures Wins(Members(s.owners), s.thresholdWeight, approvers)
       <==> Coalitions.SomeCoalitionApproves(lists, approvers)
  {
    var members, all := Members(s.owners), set i | 0 <= i < |s.owners| :: s.owners[i].id;
    ValidSpecCanBeMet(s);
    Coalitions.ListIsNotEmpty(members, s.thresholdWeight, masks, lists, all);
    Coalitions.CoalitionsMeanTheRule(members, s.thresholdWeight, masks, lists, approvers);
  }

  // ---- The reference verdict ----

  datatype Verdict = Verdict(pass: bool, why: Why)

  datatype Why = BelowThreshold(weight: int) | NotAllowlisted | Underfunded | Passes

  ghost function ExpectedSpendOutcome(owners: seq<Member>, thresholdWeight: int, approvers: set<string>,
                                      destinationAllowlisted: bool, amount: int, available: int): Verdict
  {
    if !Wins(owners, thresholdWeight, approvers)
    then Verdict(false, BelowThreshold(Weight(owners, Positions(owners, approvers))))
    else if !destinationAllowlisted then Verdict(false, NotAllowlisted)
    else if amount > available then Verdict(false, Underfunded)
    else Verdict(true, Passes)
  }

  // ---- EVM compilation ----

  /** Owners keyed by lower-cased address, as the weighted multisig and the address book store them. */
  datatype EvmConfig = EvmConfig(owners: seq<Member>, thresholdWeight: int, allowlist: seq<string>, notes: seq<string>)

  predicate HasText(s: Option<string>) {
    s.Some? && s.value != ""
  }

  /** The specs `compileEvm` accepts. */
  ghost predicate EvmExpressible(s: Spec) {
    && ValidSpec(s)
    && |s.owners| <= MAX_EVM_OWNERS
    && (forall i :: 0 <= i < |s.owners| ==> HasText(s.owners[i].evm))
    && (forall i, j :: 0 <= i < j < |s.owners| ==> Lower(s.owners[i].evm.value) != Lower(s.owners[j].evm.value))
    && (forall i :: 0 <= i < |s.allowlist| ==> HasText(s.allowlist[i].evm))
    && (forall i :: 0 <= i < |s.assets| ==> s.assets[i].budget.None?)
  }

  ghost predicate OnAllowlist(s: Spec, recipient: string) {
    exists i :: 0 <= i < |s.allowlist|
      && s.allowlist[i].evm.Some? && Lower(s.allowlist[i].evm.value) == Lower(recipient)
  }

  ghost predicate CompiledOwners(s: Spec, owners: seq<Member>) {
    && |owners| == |s.owners|
    && (forall i :: 0 <= i < |owners| ==>
          s.owners[i].evm.Some? && owners[i] == Member(Lower(s.owners[i].evm.value), s.owners[i].weight))
  }

  ghost predicate CompiledAllowlist(s: Spec, allowlist: seq<string>) {
    && DistinctTexts(allowlist)
    && (forall a :: a in allowlist <==>
          exists i :: 0 <= i < |s.allowlist| && s.allowlist[i].evm.Some? && Lower(s.allowlist[i].evm.value) == a)
  }

  method CompileOwners(s: Spec) returns (owners: Option<seq<Member>>)
    ensures owners.Some? <==>
      && (forall i :: 0 <= i < |s.owners| ==> HasText(s.owners[i].evm))
      && (forall i, j :: 0 <= i < j < |s.owners| ==> Lower(s.owners[i].evm.value) != Lower(s.owners[j].evm.value))
    ensures owners.Some? ==> CompiledOwners(s, owners.value)
  {
    var out: seq<Member> := [];
    for i := 0 to |s.owners|
      invariant |out| == i
      invariant forall k :: 0 <= k < i ==>
        HasText(s.owners[k].evm) && out[k] == Member(Lower(s.owners[k].evm.value), s.owners[k].weight)
    {
      if !HasText(s.owners[i].evm) { return None; }
      out := out + [Member(Lower(s.owners[i].evm.value), s.owners[i].weight)];
    }
    var seen: set<string> := {};
    for i := 0 to |out|
      invariant seen == set k | 0 <= k < i :: out[k].id
      invariant forall k, l :: 0 <= k < l < i ==> out[k].id != out[l].id
    {
      if out[i].id in seen {
        var k :| 0 <= k < i && out[k].id == out[i].id;
        assert Lower(s.owners[k].evm.value) == Lower(s.owners[i].evm.value);
        return None;
      }
      seen := seen + {out[i].id};
    }
    forall i, j | 0 <= i < j < |s.owners|
      ensures Lower(s.owners[i].evm.value) != Lower(s.owners[j].evm.value)
    {
      assert out[i].id != out[j].id;
    }
    return Some(out);
  }

  method CompileAllowlist(s: Spec) returns (allowlist: Option<seq<string>>)
    ensures allowlist.Some? <==> forall i :: 0 <= i < |s.allowlist| ==> HasText(s.allowlist[i].evm)
    ensures allowlist.Some? ==> CompiledAllowlist(s, allowlist.value)
  {
    var out: seq<string> := [];
    for i := 0 to |s.allowlist|
      invariant forall k :: 0 <= k < i ==> HasText(s.allowlist[k].evm)
      invariant DistinctTexts(out)
      invariant forall a :: a in out <==> exists k :: 0 <= k < i && Lower(s.allowlist[k].evm.value) == a
    {
      if !HasText(s.allowlist[i].evm) { return None; }
      var a := Lower(s.allowlist[i].evm.value);
      if a !in out {
        out := out + [a];
      }
    }
    return Some(out);
  }

  method CompileEvm(s: Spec) returns (r: Result<EvmConfig, string>)
    ensures r.Ok? <==> EvmExpressible(s)
    ensures r.Ok? ==>
      && CompiledOwners(s, r.value.owners) && CompiledAllowlist(s, r.value.allowlist)
      && r.value.thresholdWeight == s.thresholdWeight
      && (r.value.notes == [] <==> s.adminTimelockSeconds == 0)
  {
    var problem := ValidateSpec(s);
    if problem.Some? { return Err(problem.value); }
    if |s.owners| > MAX_EVM_OWNERS { return Err("more than 1000 owners"); }
    var owners := CompileOwners(s);
    if owners.None? { return Err("owner address"); }
    var allowlist := CompileAllowlist(s);
    if allowlist.None? { return Err("allowlist address"); }
    for i := 0 to |s.assets|
      invariant forall k :: 0 <= k < i ==> s.assets[k].budget.None?
    {
      if s.assets[i].budget.Some? { return Err("budgets have no EVM enforcement"); }
    }
    var notes := if s.adminTimelockSeconds > 0 then ["adminTimelockSeconds applies on Squads only"] else [];
    return Ok(EvmConfig(owners.value, s.thresholdWeight, allowlist.value, notes));
  }

  // ---- Compilation preserves meaning ----

  /** The verdict of the compiled configuration: approver weight by address, the address book, and the balance. */
  ghost predicate EvmPasses(c: EvmConfig, approvers: set<string>, recipient: string, amount: int, available: int) {
    Wins(c.owners, c.thresholdWeight, approvers) && Lower(recipient) in c.allowlist && amount <= available
  }

  function AddressesOf(s: Spec, approvers: set<string>): set<string> {
    set i | 0 <= i < |s.owners| && s.owners[i].id in approvers && s.owners[i].evm.Some? :: Lower(s.owners[i].evm.value)
  }

  lemma {:induction false} SameWeights(a: seq<Member>, b: seq<Member>, chosen: set<nat>, n: nat)
    requires |a| == |b| && n <= |a| && forall i :: 0 <= i < n ==> a[i].weight == b[i].weight
    ensures WeightAt(a, chosen, n) == WeightAt(b, chosen, n)
  {
    if n > 0 {
      SameWeights(a, b, chosen, n - 1);
    }
  }

  lemma AddressesPickTheSameOwners(s: Spec, owners: seq<Member>, approvers: set<string>)
    requires EvmExpressible(s) && CompiledOwners(s, owners)
    ensures Positions(owners, AddressesOf(s, approvers)) == Positions(Members(s.owners), approvers)
  {
    forall i: nat | i < |owners|
      ensures owners[i].id in AddressesOf(s, approvers) <==> s.owners[i].id in approvers
    {
      if owners[i].id in AddressesOf(s, approvers) {
        var k :| 0 <= k < |s.owners| && s.owners[k].id in approvers && s.owners[k].evm.Some?
                 && Lower(s.owners[k].evm.value) == owners[i].id;
        assert k == i;
      }
    }
  }

  /**
   * For every spec `compileEvm` accepts, every approver set, recipient, amount and balance: the compiled plugins decide
   * as the reference rule does on the spec. Owners and allowlist come out without duplicates.
   */
  lemma CompilationPreservesTheVerdict(s: Spec, c: EvmConfig, approvers: set<string>, recipient: string, amount: int,
                                       available: int)
    requires EvmExpressible(s)
    requires CompiledOwners(s, c.owners) && CompiledAllowlist(s, c.allowlist) && c.thresholdWeight == s.thresholdWeight
    ensures EvmPasses(c, AddressesOf(s, approvers), recipient, amount, available)
         == ExpectedSpendOutcome(Members(s.owners), s.thresholdWeight, approvers, OnAllowlist(s, recipient), amount,
                                 available).pass
    ensures DistinctIds(c.owners) && DistinctTexts(c.allowlist)
  {
    AddressesPickTheSameOwners(s, c.owners, approvers);
    SameWeights(c.owners, Members(s.owners), Positions(Members(s.owners), approvers), |s.owners|);
  }
}
