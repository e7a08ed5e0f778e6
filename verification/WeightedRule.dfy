/**
 * The reference rule of packages/weighted-treasury/src/coalitions.ts: a set of owners wins when its weight reaches
 * the threshold.
 */
module WeightedRule {
  import opened Text

  datatype Member = Member(id: string, weight: int)

  /** The weight of the members at the chosen positions, among the first `n`. */
  function WeightAt(members: seq<Member>, chosen: set<nat>, n: nat): int
    requires n <= |members|
  {
    if n == 0 then 0
    else WeightAt(members, chosen, n - 1) + if n - 1 in chosen then members[n - 1].weight else 0
  }

  function Weight(members: seq<Member>, chosen: set<nat>): int {
    WeightAt(members, chosen, |members|)
  }

  function Positions(members: seq<Member>, ids: set<string>): set<nat> {
    set i: nat | i < |members| && members[i].id in ids
  }

  ghost predicate Wins(members: seq<Member>, threshold: int, ids: set<string>) {
    Weight(members, Positions(members, ids)) >= threshold
  }

  method IsWinning(members: seq<Member>, threshold: int, ids: set<string>) returns (wins: bool)
    ensures wins == Wins(members, threshold, ids)
  {
    var sum := 0;
    for i := 0 to |members|
      invariant sum == WeightAt(members, Positions(members, ids), i)
    {
      if members[i].id in ids {
        sum := sum + members[i].weight;
      }
    }
    return sum >= threshold;
  }

  ghost predicate NonNegative(members: seq<Member>) {
    forall i :: 0 <= i < |members| ==> members[i].weight >= 0
  }

  ghost predicate DistinctIds(members: seq<Member>) {
    forall i, j :: 0 <= i < j < |members| ==> members[i].id != members[j].id
  }

  lemma {:induction false} WeightMonotone(members: seq<Member>, a: set<nat>, b: set<nat>, n: nat)
    requires n <= |members| && NonNegative(members) && a <= b
    ensures WeightAt(members, a, n) <= WeightAt(members, b, n)
  {
    if n > 0 {
      WeightMonotone(members, a, b, n - 1);
    }
  }

  lemma {:induction false} WeightWithout(members: seq<Member>, a: set<nat>, i: nat, n: nat)
    requires n <= |members| && i in a && i < |members|
    ensures WeightAt(members, a - {i}, n) == WeightAt(members, a, n) - if i < n then members[i].weight else 0
  {
    if n > 0 {
      WeightWithout(members, a, i, n - 1);
    }
  }

  /** The rule is monotone: more approvers never lose. */
  lemma WinningIsMonotone(members: seq<Member>, threshold: int, few: set<string>, many: set<string>)
    requires NonNegative(members) && few <= many && Wins(members, threshold, few)
    ensures Wins(members, threshold, many)
  {
    WeightMonotone(members, Positions(members, few), Positions(members, many), |members|);
  }

  // ---- A list of signers weighs what their set does ----

  function OwnerWeight(owners: seq<Member>, id: string): int {
    if owners == [] then 0 else if owners[0].id == id then owners[0].weight else OwnerWeight(owners[1..], id)
  }

  predicate IsOwner(owners: seq<Member>, id: string) {
    exists i :: 0 <= i < |owners| && owners[i].id == id
  }

  function SignersWeight(owners: seq<Member>, signers: seq<string>): int {
    if signers == [] then 0
    else SignersWeight(owners, signers[..|signers| - 1]) + OwnerWeight(owners, signers[|signers| - 1])
  }

  lemma {:induction false} OwnerWeightAt(owners: seq<Member>, i: nat)
    requires i < |owners| && DistinctIds(owners)
    ensures OwnerWeight(owners, owners[i].id) == owners[i].weight
  {
    if i > 0 {
      assert owners[0].id != owners[i].id;
      OwnerWeightAt(owners[1..], i - 1);
    }
  }

  lemma NoSignersNoPositions(owners: seq<Member>, n: nat)
    requires n <= |owners|
    ensures WeightAt(owners, Positions(owners, {}), n) == 0
  {
  }

  function IdSet(xs: seq<string>): set<string> {
    set x | x in xs
  }

  /** One more distinct owner adds its weight. */
  lemma SignerAdds(owners: seq<Member>, init: seq<string>, last: string)
    requires DistinctIds(owners) && IsOwner(owners, last) && last !in init
    ensures Weight(owners, Positions(owners, IdSet(init + [last])))
         == Weight(owners, Positions(owners, IdSet(init))) + OwnerWeight(owners, last)
  {
    var i: nat :| i < |owners| && owners[i].id == last;
    var more, less := Positions(owners, IdSet(init + [last])), Positions(owners, IdSet(init));
    forall k: nat | k < |owners|
      ensures k in less <==> k in more - {i}
    {
      assert owners[k].id in IdSet(init + [last]) <==> owners[k].id in IdSet(init) || owners[k].id == last;
    }
    assert more - {i} == less && i in more;
    WeightWithout(owners, more, i, |owners|);
    OwnerWeightAt(owners, i);
  }

  lemma {:induction false} SignersWeighTheirOwners(owners: seq<Member>, signers: seq<string>)
    requires DistinctIds(owners) && DistinctTexts(signers) && forall x :: x in signers ==> IsOwner(owners, x)
    ensures SignersWeight(owners, signers) == Weight(owners, Positions(owners, IdSet(signers)))
  {
    if signers == [] {
      assert IdSet(signers) == {};
      NoSignersNoPositions(owners, |owners|);
    } else {
      var init, last := signers[..|signers| - 1], signers[|signers| - 1];
      assert signers == init + [last];
      SignersWeighTheirOwners(owners, init);
      SignerAdds(owners, init, last);
    }
  }
}
