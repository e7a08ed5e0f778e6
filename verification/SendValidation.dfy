/**
 * `validateSend` and `frostDrift` of apps/ultimate-treasury/server/send.ts, and what they guarantee about the signing
 * decision the FROST coordinator takes later. Amounts are in micro-USDC.
 */
module SendValidation {
  import opened Wrappers
  import opened Text
  import opened WeightedRule
  import opened Frost

  datatype Source = Evm | Solana

  datatype WantedSource = Auto | Fixed(source: Source) | Unknown

  datatype Request = Request(
    asset: string,
    amount: string,
    recipient: string,
    recipientIsAddress: bool,
    signers: seq<string>,
    source: WantedSource,
    expectRefusal: bool)

  /** The part of the live policy a send is checked against. */
  datatype Policy = Policy(thresholdWeight: nat, owners: seq<Member>, perIntentCap: nat)

  datatype Balances = Balances(evm: nat, solana: nat)

  datatype Input = Input(req: Request, pol: Policy, allowlisted: bool, balances: Balances, frostOwners: Option<Owners>)

  datatype Validated = Validated(source: Source, value: nat, signers: seq<string>, weight: int)

  datatype Refusal = Refusal(status: nat, reason: string)

  const SANDBOX_CAP := 1_000_000
  const EVM_FEE := 10_000
  const SOLANA_FEE := 200_000

  // ---- The amount ----

  function Scale(digits: nat): (r: nat)
    requires digits <= 6
    ensures r > 0
    decreases 6 - digits
  {
    if digits == 6 then 1 else 10 * Scale(digits + 1)
  }

  /** The amount regex together with `parseUnits(amount, 6)`. */
  function MicroUnits(amount: string): Option<nat> {
    var parts := Split(amount, '.');
    if |parts| > 2 || parts[0] == "" || !AllDigits(parts[0]) then None
    else if |parts| == 1 then Some(DigitsValue(parts[0]) * 1_000_000)
    else if !(1 <= |parts[1]| <= 6) || !AllDigits(parts[1]) then None
    else Some(DigitsValue(parts[0]) * 1_000_000 + DigitsValue(parts[1]) * Scale(|parts[1]|))
  }

  // ---- FROST drift ----

  function HeldShares(frost: Owners, id: string): nat {
    if id in frost.shares then |frost.shares[id]| else 0
  }

  /** The share map equals the on-chain weights and threshold. */
  predicate InStep(pol: Policy, frost: Option<Owners>) {
    && frost.Some?
    && frost.value.threshold == pol.thresholdWeight
    && (forall i :: 0 <= i < |pol.owners| ==> HeldShares(frost.value, pol.owners[i].id) == pol.owners[i].weight)
    && (forall id :: id in frost.value.shares ==> IsOwner(pol.owners, id))
  }

  method FrostDrift(pol: Policy, frost: Option<Owners>) returns (drift: Option<string>)
    ensures drift.None? <==> InStep(pol, frost)
  {
    if frost.None? { return Some("no owners.json"); }
    if frost.value.threshold != pol.thresholdWeight { return Some("share threshold"); }
    for k := 0 to |pol.owners|
      invariant forall i :: 0 <= i < k ==> HeldShares(frost.value, pol.owners[i].id) == pol.owners[i].weight
    {
      if HeldShares(frost.value, pol.owners[k].id) != pol.owners[k].weight { return Some("owner shares"); }
    }
    var extra := set id | id in frost.value.shares && !IsOwner(pol.owners, id);
    if extra != {} { return Some("share holders not on-chain owners"); }
    assert forall id :: id in frost.value.shares && !IsOwner(pol.owners, id) ==> id in extra;
    return None;
  }

  // ---- Validation ----

  function Fee(source: Source): nat {
    match source
    case Evm => EVM_FEE
    case Solana => SOLANA_FEE
  }

  function Balance(b: Balances, source: Source): nat {
    match source
    case Evm => b.evm
    case Solana => b.solana
  }

  predicate Covers(b: Balances, source: Source, value: nat) {
    Balance(b, source) >= value + Fee(source)
  }

  /** Among the positions that cover the amount and fee, the one holding more; the treasury contract on a tie. */
  function PickSource(b: Balances, value: nat, perIntentCap: nat): Option<Source> {
    var evm := value <= perIntentCap && Covers(b, Evm, value);
    var solana := Covers(b, Solana, value);
    if evm && solana then Some(if b.evm >= b.solana then Evm else Solana)
    else if evm then Some(Evm)
    else if solana then Some(Solana)
    else None
  }

  function ChooseSource(i: Input, value: nat): Result<Source, Refusal> {
    match i.req.source
    case Auto =>
      var picked := PickSource(i.balances, value, i.pol.perIntentCap);
      if picked.None? then Err(Refusal(400, "no position covers the amount")) else Ok(picked.value)
    case Fixed(source) =>
      if !Covers(i.balances, source, value) then Err(Refusal(400, "balance")) else Ok(source)
    case Unknown => Err(Refusal(400, "source must be auto, evm or solana"))
  }

  function ValidateSend(i: Input): Result<Validated, Refusal> {
    var value := MicroUnits(i.req.amount);
    var signers := Distinct(i.req.signers);
    if i.req.asset != "USDC" then Err(Refusal(400, "asset"))
    else if value.None? || value.value == 0 then Err(Refusal(400, "amount"))
    else if !i.req.recipientIsAddress then Err(Refusal(400, "recipient"))
    else if signers == [] then Err(Refusal(400, "choose at least one owner"))
    else if exists k :: 0 <= k < |signers| && !IsOwner(i.pol.owners, signers[k]) then Err(Refusal(400, "not an owner"))
    else
      var weight := SignersWeight(i.pol.owners, signers);
      if value.value > SANDBOX_CAP then Err(Refusal(400, "sandbox cap"))
      else if value.value > i.pol.perIntentCap then Err(Refusal(400, "per-intent cap"))
      else if i.req.expectRefusal && i.allowlisted && weight >= i.pol.thresholdWeight
        then Err(Refusal(400, "refusal demo would move funds"))
      else
        var source := ChooseSource(i, value.value);
        if source.Err? then Err(source.error)
        else if source.value.Solana? && !InStep(i.pol, i.frostOwners) then Err(Refusal(409, "FROST share map"))
        else Ok(Validated(source.value, value.value, signers, weight))
  }

  /**
   * What an accepted request is known to satisfy. Every cap and the balance check hold whatever the client flags say.
   */
  lemma AcceptedSendIsCovered(i: Input)
    requires ValidateSend(i).Ok?
    ensures var v := ValidateSend(i).value;
      && 0 < v.value <= SANDBOX_CAP && v.value <= i.pol.perIntentCap && Covers(i.balances, v.source, v.value)
      && DistinctTexts(v.signers) && v.signers != [] && (forall x :: x in v.signers ==> IsOwner(i.pol.owners, x))
      && (v.source.Solana? ==> InStep(i.pol, i.frostOwners))
      && !(i.req.expectRefusal && i.allowlisted && v.weight >= i.pol.thresholdWeight)
  {
    var v := ValidateSend(i).value;
    forall x | x in v.signers
      ensures IsOwner(i.pol.owners, x)
    {
      var k :| 0 <= k < |v.signers| && v.signers[k] == x;
    }
  }

  /**
   * `expectRefusal` only adds a check: what is accepted with the flag is accepted without it, with the same outcome.
   */
  lemma RefusalFlagOnlyAdds(i: Input)
    requires i.req.expectRefusal && ValidateSend(i).Ok?
    ensures ValidateSend(i.(req := i.req.(expectRefusal := false))) == ValidateSend(i)
  {
  }

  // ---- The coordinator decides as the rule does ----

  lemma {:induction false} SharesCountTheWeight(pol: Policy, frost: Owners, signers: seq<string>)
    requires InStep(pol, Some(frost)) && DistinctIds(pol.owners)
    requires forall x :: x in signers ==> IsOwner(pol.owners, x) && x in frost.shares
    ensures ShareCount(frost.shares, signers) == SignersWeight(pol.owners, signers)
  {
    if signers != [] {
      var init, last := signers[..|signers| - 1], signers[|signers| - 1];
      assert signers == init + [last];
      SharesCountTheWeight(pol, frost, init);
      assert last in signers;
      var i: nat :| i < |pol.owners| && pol.owners[i].id == last;
      OwnerWeightAt(pol.owners, i);
    }
  }

  /** The share map was written by key generation from `ownersSpec`, with a total weight its counter can hold. */
  ghost predicate WrittenByDkg(ownersSpec: string, frost: Owners) {
    var parsed := ParseParts(Split(ownersSpec, ','));
    && DkgShares(parsed, frost.threshold) == Some(frost)
    && Sum(Entries(parsed), |parsed|) <= MAX_TOTAL
  }

  /** Without drift every owner's weight is its share count, so none is negative. */
  lemma WeightIsShareCount(pol: Policy, frost: Owners, x: string)
    requires InStep(pol, Some(frost)) && DistinctIds(pol.owners) && IsOwner(pol.owners, x)
    ensures OwnerWeight(pol.owners, x) == HeldShares(frost, x)
  {
    var i :| 0 <= i < |pol.owners| && pol.owners[i].id == x;
    OwnerWeightAt(pol.owners, i);
  }

  /**
   * An owner holds shares exactly when it weighs at least one, and its name is then a name of the key generation.
   */
  lemma SignersHoldShares(ownersSpec: string, pol: Policy, frost: Owners, x: string)
    requires WrittenByDkg(ownersSpec, frost) && InStep(pol, Some(frost))
    requires DistinctIds(pol.owners) && IsOwner(pol.owners, x)
    ensures x in frost.shares <==> OwnerWeight(pol.owners, x) >= 1
    ensures x in frost.shares ==> ',' !in x
  {
    WeightIsShareCount(pol, frost, x);
    if x in frost.shares {
      var k := HolderIsEntry(Entries(ParseParts(Split(ownersSpec, ','))), frost.shares, x);
      DkgNamesHaveNoComma(ownersSpec, k);
    }
  }

  /** The label of an owner that weighs something. */
  ghost predicate Weighs(pol: Policy, name: string) {
    IsOwner(pol.owners, name) && OwnerWeight(pol.owners, name) >= 1
  }

  ghost predicate AllWeigh(pol: Policy, names: seq<string>) {
    forall k :: 0 <= k < |names| ==> Weighs(pol, names[k])
  }

  /** Labels the coordinator can resolve: each an owner with weight, none twice. */
  ghost predicate Resolvable(pol: Policy, labels: seq<string>) {
    DistinctTexts(labels) && AllWeigh(pol, labels)
  }

  /** Names that a comma-separated list keeps apart. No owner with weight has a comma in its name. */
  ghost predicate Listable(pol: Policy, names: seq<string>) {
    forall k :: 0 <= k < |names| ==> Weighs(pol, names[k]) || ',' !in names[k]
  }

  lemma HoldersWeigh(ownersSpec: string, pol: Policy, frost: Owners, x: string)
    requires WrittenByDkg(ownersSpec, frost) && InStep(pol, Some(frost)) && DistinctIds(pol.owners)
    ensures x in frost.shares <==> Weighs(pol, x)
  {
    if IsOwner(pol.owners, x) {
      SignersHoldShares(ownersSpec, pol, frost, x);
    }
  }

  lemma ResolvedCountIsWeight(ownersSpec: string, pol: Policy, frost: Owners, labels: seq<string>)
    requires WrittenByDkg(ownersSpec, frost) && InStep(pol, Some(frost)) && DistinctIds(pol.owners)
    requires Resolvable(pol, labels) && forall k :: 0 <= k < |labels| ==> labels[k] in frost.shares
    ensures |Holdings(frost.shares, labels)| == Weight(pol.owners, Positions(pol.owners, IdSet(labels)))
  {
    HoldingsAddUp(Entries(ParseParts(Split(ownersSpec, ','))), frost.shares, labels);
    SharesCountTheWeight(pol, frost, labels);
    SignersWeighTheirOwners(pol.owners, labels);
  }

  /**
   * For a share map written by key generation and in step with the policy, and any list of labels: it is refused if
   * and only if a label is repeated or is no owner with weight; else the resolved shares number exactly its on-chain
   * weight, and the coordinator signs if and only if the weighted rule holds.
   */
  lemma CoordinatorDecidesTheRule(ownersSpec: string, pol: Policy, frost: Owners, labels: seq<string>)
    requires WrittenByDkg(ownersSpec, frost) && InStep(pol, Some(frost)) && DistinctIds(pol.owners)
    ensures Decide(frost, labels) == BadSigners <==> !Resolvable(pol, labels)
    ensures Resolvable(pol, labels) ==>
      var weight := Weight(pol.owners, Positions(pol.owners, IdSet(labels)));
      && weight >= 0
      && Decide(frost, labels)
         == if Wins(pol.owners, pol.thresholdWeight, IdSet(labels)) then Signs(weight) else BelowThreshold(weight)
  {
    forall k | 0 <= k < |labels|
      ensures labels[k] in frost.shares <==> Weighs(pol, labels[k])
    {
      HoldersWeigh(ownersSpec, pol, frost, labels[k]);
    }
    if Resolvable(pol, labels) {
      ResolvedCountIsWeight(ownersSpec, pol, frost, labels);
    }
  }

  /** What the coordinator reads from the list the server sends. */
  function LabelsOf(signers: seq<string>): seq<string> {
    Split(Join(signers, ','), ',')
  }

  /** A listable list arrives as it was sent. */
  lemma LabelsAreSigners(ownersSpec: string, pol: Policy, frost: Owners, signers: seq<string>)
    requires WrittenByDkg(ownersSpec, frost) && InStep(pol, Some(frost)) && DistinctIds(pol.owners) && signers != []
    requires Listable(pol, signers)
    ensures LabelsOf(signers) == signers
  {
    forall k | 0 <= k < |signers|
      ensures ',' !in signers[k]
    {
      if Weighs(pol, signers[k]) {
        SignersHoldShares(ownersSpec, pol, frost, signers[k]);
      }
    }
    SplitJoin(signers, ',');
  }

  /** A name with a comma acts as its parts. */
  lemma CommaNameActsAsItsParts(a: string, b: string)
    requires ',' !in a && ',' !in b
    ensures LabelsOf([a + [','] + b]) == [a, b]
  {
    SplitJoin([a, b], ',');
    assert [a, b][1..] == [b];
    assert Join([a, b], ',') == a + [','] + b;
  }

  /**
   * So for every accepted Solana send the coordinator's share check passes if and only if the labels it reads are
   * distinct owners with weight whose weight wins. Unless a weightless signer's name holds a comma, those labels are
   * the signers: it then passes if and only if the signers' weight wins and none of them is weightless.
   */
  lemma AcceptedSolanaSendSignsIffItWins(ownersSpec: string, i: Input)
    requires ValidateSend(i).Ok? && ValidateSend(i).value.source.Solana? && DistinctIds(i.pol.owners)
    requires i.frostOwners.Some? ==> WrittenByDkg(ownersSpec, i.frostOwners.value)
    ensures i.frostOwners.Some?
    ensures var v := ValidateSend(i).value;
      var labels := LabelsOf(v.signers);
      && v.weight == Weight(i.pol.owners, Positions(i.pol.owners, IdSet(v.signers)))
      && (Decide(i.frostOwners.value, labels).Signs?
          <==> Resolvable(i.pol, labels) && Wins(i.pol.owners, i.pol.thresholdWeight, IdSet(labels)))
      && (Listable(i.pol, v.signers) ==>
            (Decide(i.frostOwners.value, labels).Signs?
             <==> v.weight >= i.pol.thresholdWeight && AllWeigh(i.pol, v.signers)))
  {
    AcceptedSendIsCovered(i);
    var v := ValidateSend(i).value;
    var frost := i.frostOwners.value;
    SignersWeighTheirOwners(i.pol.owners, v.signers);
    CoordinatorDecidesTheRule(ownersSpec, i.pol, frost, LabelsOf(v.signers));
    if Listable(i.pol, v.signers) {
      LabelsAreSigners(ownersSpec, i.pol, frost, v.signers);
    }
  }
}
