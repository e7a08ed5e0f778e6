/**
 * `minimalWinningCoalitions` of packages/weighted-treasury/src/coalitions.ts: the weighted rule as an OR of all-of
 * groups.
 */
module Coalitions {
  import opened Wrappers
  import opened Bits
  import opened WeightedRule

  const MAX_ENUMERABLE_OWNERS := 20

  // ---- Minimal winning sets ----

  ghost predicate Minimal(members: seq<Member>, threshold: int, s: set<nat>) {
    && (forall i :: i in s ==> i < |members|)
    && Weight(members, s) >= threshold
    && (forall i :: i in s ==> Weight(members, s) - members[i].weight < threshold)
  }

  ghost predicate MinimalMask(members: seq<Member>, threshold: int, mask: nat) {
    0 < mask < Pow2(|members|) && Minimal(members, threshold, Chosen(mask, |members|))
  }

  /** Losing any one member is enough to check: no proper subset of a minimal set wins. */
  lemma NoProperSubsetWins(members: seq<Member>, threshold: int, s: set<nat>, t: set<nat>)
    requires NonNegative(members) && Minimal(members, threshold, s) && t < s
    ensures Weight(members, t) < threshold
  {
    var i :| i in s && i !in t;
    WeightWithout(members, s, i, |members|);
    WeightMonotone(members, t, s - {i}, |members|);
  }

  /** Every winning set contains a minimal one. */
  lemma {:induction false} ContainsMinimal(members: seq<Member>, threshold: int, s: set<nat>) returns (m: set<nat>)
    requires (forall i :: i in s ==> i < |members|) && Weight(members, s) >= threshold
    ensures m <= s && Minimal(members, threshold, m)
    decreases |s|
  {
    if i :| i in s && Weight(members, s) - members[i].weight >= threshold {
      WeightWithout(members, s, i, |members|);
      m := ContainsMinimal(members, threshold, s - {i});
    } else {
      m := s;
    }
  }

  // ---- The order of the list ----

  /** The comparison from position `i` on: at the first difference, the mask that has the member comes first. */
  function LowOrder(a: nat, b: nat, i: nat, n: nat): int
    decreases n - i
  {
    if i >= n then 0
    else if Bit(a, i) != Bit(b, i) then (if Bit(a, i) then -1 else 1)
    else LowOrder(a, b, i + 1, n)
  }

  method LowBitOrder(a: nat, b: nat, n: nat) returns (r: int)
    ensures r == LowOrder(a, b, 0, n)
  {
    for i := 0 to n
      invariant LowOrder(a, b, 0, n) == LowOrder(a, b, i, n)
    {
      TestShifted(a, i);
      TestShifted(b, i);
      var inA: int := And(ShiftRight(a, i), 1);
      var inB: int := And(ShiftRight(b, i), 1);
      if inA != inB {
        return inB - inA;
      }
    }
    return 0;
  }

  function Order(a: nat, b: nat, n: nat): int {
    if Ones(a) != Ones(b) then Ones(a) - Ones(b) else LowOrder(a, b, 0, n)
  }

  predicate Before(a: nat, b: nat, n: nat) {
    Order(a, b, n) < 0
  }

  method Compare(a: nat, b: nat, n: nat) returns (r: int)
    ensures r == Order(a, b, n)
  {
    var ca: int := PopCount(a);
    var cb: int := PopCount(b);
    r := ca - cb;
    if r == 0 {
      r := LowBitOrder(a, b, n);
    }
  }

  lemma {:induction false} LowOrderFlips(a: nat, b: nat, i: nat, n: nat)
    ensures LowOrder(a, b, i, n) == -LowOrder(b, a, i, n)
    decreases n - i
  {
    if i < n {
      LowOrderFlips(a, b, i + 1, n);
    }
  }

  lemma {:induction false} LowOrderChains(a: nat, b: nat, c: nat, i: nat, n: nat)
    requires LowOrder(a, b, i, n) < 0 && LowOrder(b, c, i, n) < 0
    ensures LowOrder(a, c, i, n) < 0
    decreases n - i
  {
    if Bit(a, i) == Bit(b, i) == Bit(c, i) {
      LowOrderChains(a, b, c, i + 1, n);
    }
  }

  lemma {:induction false} LowOrderTies(a: nat, b: nat, i: nat, n: nat)
    requires LowOrder(a, b, i, n) == 0
    ensures forall k :: i <= k < n ==> Bit(a, k) == Bit(b, k)
    decreases n - i
  {
    if i < n {
      LowOrderTies(a, b, i + 1, n);
    }
  }

  /** On the masks of one owner list the comparison is a strict total order. */
  lemma OrderIsTotal(a: nat, b: nat, c: nat, n: nat)
    requires a < Pow2(n) && b < Pow2(n) && c < Pow2(n)
    ensures !Before(a, a, n)
    ensures Before(a, b, n) && Before(b, c, n) ==> Before(a, c, n)
    ensures Before(a, b, n) || Before(b, a, n) || a == b
    ensures !(Before(a, b, n) && Before(b, a, n))
  {
    LowOrderFlips(a, a, 0, n);
    LowOrderFlips(a, b, 0, n);
    if Order(a, b, n) == 0 {
      LowOrderTies(a, b, 0, n);
      EqualBits(a, b, n);
    }
    if Before(a, b, n) && Before(b, c, n) && Ones(a) == Ones(b) == Ones(c) {
      LowOrderChains(a, b, c, 0, n);
    }
  }

  ghost predicate Below(masks: seq<nat>, n: nat) {
    forall i :: 0 <= i < |masks| ==> masks[i] < Pow2(n)
  }

  ghost predicate Sorted(masks: seq<nat>, n: nat) {
    forall i, j :: 0 <= i < j < |masks| ==> Before(masks[i], masks[j], n)
  }

  // ---- Sorting ----

  /** Inserts `x` at its place; any correct sort gives the same list (see SortIsUnique). */
  method Insert(masks: seq<nat>, x: nat, n: nat) returns (r: seq<nat>)
    requires Below(masks, n) && Sorted(masks, n) && x < Pow2(n) && x !in masks
    ensures Below(r, n) && Sorted(r, n)
    ensures forall m :: m in r <==> m in masks || m == x
  {
    var k := |masks|;
    while k > 0
      invariant 0 <= k <= |masks|
      invariant forall i :: k <= i < |masks| ==> Before(x, masks[i], n)
    {
      var c := Compare(x, masks[k - 1], n);
      if c >= 0 {
        break;
      }
      k := k - 1;
    }
    forall i | 0 <= i < k
      ensures Before(masks[i], x, n)
    {
      assert masks[k - 1] in masks;
      OrderIsTotal(masks[i], masks[k - 1], x, n);
      OrderIsTotal(x, masks[k - 1], x, n);
    }
    r := masks[..k] + [x] + masks[k..];
    InsertedSorted(masks, x, k, n);
    InsertedElements(masks, x, k);
  }

  lemma InsertedSorted(masks: seq<nat>, x: nat, k: nat, n: nat)
    requires Sorted(masks, n) && k <= |masks|
    requires forall i :: 0 <= i < k ==> Before(masks[i], x, n)
    requires forall i :: k <= i < |masks| ==> Before(x, masks[i], n)
    ensures Sorted(masks[..k] + [x] + masks[k..], n)
  {
    var r := masks[..k] + [x] + masks[k..];
    forall i, j | 0 <= i < j < |r|
      ensures Before(r[i], r[j], n)
    {
      assert i < k ==> r[i] == masks[i];
      assert i > k ==> r[i] == masks[i - 1];
      assert j < k ==> r[j] == masks[j];
      assert j > k ==> r[j] == masks[j - 1];
    }
  }

  lemma InsertedElements(masks: seq<nat>, x: nat, k: nat)
    requires k <= |masks|
    ensures forall m :: m in masks[..k] + [x] + masks[k..] <==> m in masks || m == x
  {
    assert masks == masks[..k] + masks[k..];
  }

  method SortMasks(masks: seq<nat>, n: nat) returns (r: seq<nat>)
    requires Below(masks, n) && (forall i, j :: 0 <= i < j < |masks| ==> masks[i] != masks[j])
    ensures Below(r, n) && Sorted(r, n)
    ensures forall m :: m in r <==> m in masks
  {
    r := [];
    for k := 0 to |masks|
      invariant Below(r, n) && Sorted(r, n)
      invariant forall m :: m in r <==> m in masks[..k]
    {
      assert masks[..k + 1] == masks[..k] + [masks[k]];
      r := Insert(r, masks[k], n);
    }
    assert masks[..|masks|] == masks;
  }

  lemma SameHead(a: seq<nat>, b: seq<nat>, n: nat)
    requires a != [] && b != [] && Below(a, n) && Below(b, n) && Sorted(a, n) && Sorted(b, n)
    requires a[0] in b && b[0] in a
    ensures a[0] == b[0]
  {
    OrderIsTotal(a[0], b[0], a[0], n);
  }

  lemma TailElements(a: seq<nat>, n: nat)
    requires a != [] && Below(a, n) && Sorted(a, n)
    ensures forall m :: m in a[1..] <==> m in a && m != a[0]
  {
    assert a == [a[0]] + a[1..];
    forall i | 1 <= i < |a|
      ensures a[i] != a[0]
    {
      OrderIsTotal(a[0], a[i], a[0], n);
    }
  }

  lemma EmptyTogether(a: seq<nat>, b: seq<nat>)
    requires forall m :: m in a <==> m in b
    ensures a == [] <==> b == []
  {
    if a != [] {
      assert a[0] in b;
    }
    if b != [] {
      assert b[0] in a;
    }
  }

  /** Two sorted lists of the same masks are equal, so the list does not depend on how the engine sorts. */
  lemma {:induction false} SortIsUnique(a: seq<nat>, b: seq<nat>, n: nat)
    requires Below(a, n) && Below(b, n) && Sorted(a, n) && Sorted(b, n)
    requires forall m :: m in a <==> m in b
    ensures a == b
  {
    EmptyTogether(a, b);
    if a != [] {
      SameHead(a, b, n);
      TailElements(a, n);
      TailElements(b, n);
      SortIsUnique(a[1..], b[1..], n);
      assert a == [a[0]] + a[1..] && b == [b[0]] + b[1..];
    }
  }

  // ---- Enumeration ----

  method WeightOf(members: seq<Member>, mask: nat) returns (sum: int)
    ensures sum == Weight(members, Chosen(mask, |members|))
  {
    sum := 0;
    for i := 0 to |members|
      invariant sum == WeightAt(members, Chosen(mask, |members|), i)
    {
      TestBit(mask, i);
      if And(mask, Pow2(i)) != 0 {
        sum := sum + members[i].weight;
      }
    }
  }

  method IsMinimal(members: seq<Member>, threshold: int, mask: nat) returns (minimal: bool)
    ensures minimal == Minimal(members, threshold, Chosen(mask, |members|))
  {
    var sum := WeightOf(members, mask);
    if sum < threshold {
      return false;
    }
    for i := 0 to |members|
      invariant forall k: nat :: k in Chosen(mask, |members|) && k < i ==> sum - members[k].weight < threshold
    {
      TestBit(mask, i);
      if And(mask, Pow2(i)) != 0 && sum - members[i].weight >= threshold {
        assert i in Chosen(mask, |members|);
        return false;
      }
    }
    return true;
  }

  method Enumerate(members: seq<Member>, threshold: int) returns (masks: seq<nat>)
    ensures Below(masks, |members|)
    ensures forall i, j :: 0 <= i < j < |masks| ==> masks[i] != masks[j]
    ensures forall m :: m in masks <==> MinimalMask(members, threshold, m)
  {
    var n := |members|;
    masks := [];
    var mask := 1;
    while mask < Pow2(n)
      invariant 1 <= mask <= Pow2(n)
      invariant forall i :: 0 <= i < |masks| ==> masks[i] < mask
      invariant forall i, j :: 0 <= i < j < |masks| ==> masks[i] != masks[j]
      invariant forall m: nat :: m in masks <==> m < mask && MinimalMask(members, threshold, m)
    {
      var minimal := IsMinimal(members, threshold, mask);
      if minimal {
        masks := masks + [mask];
      }
      mask := mask + 1;
    }
  }

  // ---- The list of coalitions ----

  /** The ids of the mask's members among the first `n`, in input order. */
  function IdsAt(members: seq<Member>, mask: nat, n: nat): seq<string>
    requires n <= |members|
  {
    if n == 0 then []
    else IdsAt(members, mask, n - 1) + if Bit(mask, n - 1) then [members[n - 1].id] else []
  }

  method IdsOf(members: seq<Member>, mask: nat) returns (ids: seq<string>)
    ensures ids == IdsAt(members, mask, |members|)
  {
    ids := [];
    for i := 0 to |members|
      invariant ids == IdsAt(members, mask, i)
    {
      TestBit(mask, i);
      if And(mask, Pow2(i)) != 0 {
        ids := ids + [members[i].id];
      }
    }
  }

  /** `lists` are the minimal winning coalitions of `masks`, all of them, in order. */
  ghost predicate IsCoalitionList(members: seq<Member>, threshold: int, masks: seq<nat>, lists: seq<seq<string>>) {
    && Below(masks, |members|) && Sorted(masks, |members|)
    && (forall m :: m in masks <==> MinimalMask(members, threshold, m))
    && |lists| == |masks|
    && (forall k :: 0 <= k < |masks| ==> lists[k] == IdsAt(members, masks[k], |members|))
  }

  method MinimalWinningCoalitions(members: seq<Member>, threshold: int)
      returns (r: Result<seq<seq<string>>, string>, ghost masks: seq<nat>)
    ensures r.Ok? <==> |members| <= MAX_ENUMERABLE_OWNERS
    ensures r.Ok? ==> IsCoalitionList(members, threshold, masks, r.value)
  {
    masks := [];
    if |members| > MAX_ENUMERABLE_OWNERS {
      return Err("cannot enumerate coalitions"), masks;
    }
    var found := Enumerate(members, threshold);
    var sorted := SortMasks(found, |members|);
    var lists: seq<seq<string>> := [];
    for k := 0 to |sorted|
      invariant |lists| == k
      invariant forall i :: 0 <= i < k ==> lists[i] == IdsAt(members, sorted[i], |members|)
    {
      var ids := IdsOf(members, sorted[k]);
      lists := lists + [ids];
    }
    return Ok(lists), sorted;
  }

  // ---- What the list means ----

  lemma {:induction false} IdsAreMembers(members: seq<Member>, mask: nat, n: nat)
    requires n <= |members|
    ensures forall x :: x in IdsAt(members, mask, n) <==> exists i: nat :: i < n && Bit(mask, i) && members[i].id == x
  {
    if n > 0 {
      IdsAreMembers(members, mask, n - 1);
      forall x
        ensures x in IdsAt(members, mask, n) <==> exists i: nat :: i < n && Bit(mask, i) && members[i].id == x
      {
        if Bit(mask, n - 1) && members[n - 1].id == x {
          assert x in IdsAt(members, mask, n);
        }
      }
    }
  }

  ghost predicate AllIn(list: seq<string>, ids: set<string>) {
    forall x :: x in list ==> x in ids
  }

  /** A coalition is contained in an approver set exactly when its positions are. */
  lemma ContainedByPosition(members: seq<Member>, mask: nat, ids: set<string>)
    ensures AllIn(IdsAt(members, mask, |members|), ids)
       <==> Chosen(mask, |members|) <= Positions(members, ids)
  {
    var list := IdsAt(members, mask, |members|);
    IdsAreMembers(members, mask, |members|);
    if AllIn(list, ids) {
      forall i | i in Chosen(mask, |members|)
        ensures i in Positions(members, ids)
      {
        assert members[i].id in list;
      }
    }
    if Chosen(mask, |members|) <= Positions(members, ids) {
      forall x | x in list
        ensures x in ids
      {
        var i: nat :| i < |members| && Bit(mask, i) && members[i].id == x;
        assert i in Chosen(mask, |members|);
      }
    }
  }

  ghost predicate SomeCoalitionApproves(lists: seq<seq<string>>, ids: set<string>) {
    exists k :: 0 <= k < |lists| && AllIn(lists[k], ids)
  }

  /** Each minimal winning set of positions is on the list. */
  lemma ListIsComplete(members: seq<Member>, threshold: int, masks: seq<nat>, lists: seq<seq<string>>, s: set<nat>)
      returns (k: nat)
    requires IsCoalitionList(members, threshold, masks, lists) && threshold >= 1
    requires Minimal(members, threshold, s)
    ensures k < |masks| && Chosen(masks[k], |members|) == s
  {
    var m := MaskOf(s, |members|);
    EmptyWeighsNothing(members, |members|);
    ZeroChoosesNothing(|members|);
    assert m in masks;
    k :| 0 <= k < |masks| && masks[k] == m;
  }

  lemma ZeroChoosesNothing(n: nat)
    ensures Chosen(0, n) == {}
  {
    forall i: nat | i < n
      ensures i !in Chosen(0, n)
    {
      ZeroHasNoBits(i);
    }
  }

  lemma {:induction false} EmptyWeighsNothing(members: seq<Member>, n: nat)
    requires n <= |members|
    ensures WeightAt(members, {}, n) == 0
  {
    if n > 0 {
      EmptyWeighsNothing(members, n - 1);
    }
  }

  /**
   * Compilation preserves meaning: for every approver set (owners or not), its weight reaches the threshold if and
   * only if it contains one of the listed coalitions.
   */
  lemma CoalitionsMeanTheRule(members: seq<Member>, threshold: int, masks: seq<nat>, lists: seq<seq<string>>,
                              ids: set<string>)
    requires NonNegative(members) && threshold >= 1 && IsCoalitionList(members, threshold, masks, lists)
    ensures Wins(members, threshold, ids) <==> SomeCoalitionApproves(lists, ids)
  {
    var have := Positions(members, ids);
    if Wins(members, threshold, ids) {
      var s := ContainsMinimal(members, threshold, have);
      var k := ListIsComplete(members, threshold, masks, lists, s);
      ContainedByPosition(members, masks[k], ids);
      assert AllIn(lists[k], ids);
    }
    if SomeCoalitionApproves(lists, ids) {
      var k :| 0 <= k < |lists| && AllIn(lists[k], ids);
      assert masks[k] in masks;
      ContainedByPosition(members, masks[k], ids);
      WeightMonotone(members, Chosen(masks[k], |members|), have, |members|);
    }
  }

  /** A rule that anybody can meet has a coalition. */
  lemma ListIsNotEmpty(members: seq<Member>, threshold: int, masks: seq<nat>, lists: seq<seq<string>>, ids: set<string>)
    requires threshold >= 1 && IsCoalitionList(members, threshold, masks, lists) && Wins(members, threshold, ids)
    ensures lists != []
  {
    var s := ContainsMinimal(members, threshold, Positions(members, ids));
    var _ := ListIsComplete(members, threshold, masks, lists, s);
  }

  /** The list is an antichain: no listed coalition contains another, and no proper subset of one wins. */
  lemma ListIsAnAntichain(members: seq<Member>, threshold: int, masks: seq<nat>, lists: seq<seq<string>>, k: nat,
                          l: nat)
    requires NonNegative(members) && DistinctIds(members) && IsCoalitionList(members, threshold, masks, lists)
    requires k < |lists| && l < |lists| && k != l
    ensures exists x :: x in lists[k] && x !in lists[l]
  {
    var n := |members|;
    assert masks[k] in masks && masks[l] in masks;
    MasksDiffer(masks, n, k, l);
    var a, b := Chosen(masks[k], n), Chosen(masks[l], n);
    if a == b {
      ChosenInjective(masks[k], masks[l], n);
    }
    if a < b {
      NoProperSubsetWins(members, threshold, b, a);
    }
    var i :| i in a && i !in b;
    IdsAreMembers(members, masks[k], n);
    IdsAreMembers(members, masks[l], n);
    assert members[i].id in lists[k] && members[i].id !in lists[l];
  }

  lemma MasksDiffer(masks: seq<nat>, n: nat, k: nat, l: nat)
    requires Below(masks, n) && Sorted(masks, n) && k < |masks| && l < |masks| && k != l
    ensures masks[k] != masks[l]
  {
    OrderIsTotal(masks[k], masks[l], masks[k], n);
  }

  /** The list is strictly sorted: smaller coalitions first, then by the first position where two differ. */
  lemma ListIsSorted(members: seq<Member>, threshold: int, masks: seq<nat>, lists: seq<seq<string>>, k: nat, l: nat)
    requires IsCoalitionList(members, threshold, masks, lists) && k < l < |lists|
    ensures var a, b := Chosen(masks[k], |members|), Chosen(masks[l], |members|);
      || |a| < |b|
      || (|a| == |b| && exists i: nat :: i in a && i !in b && (forall j: nat :: j < i ==> (j in a <==> j in b)))
  {
    var n := |members|;
    OnesCountsChosen(masks[k], n);
    OnesCountsChosen(masks[l], n);
    assert Before(masks[k], masks[l], n);
    if Ones(masks[k]) == Ones(masks[l]) {
      var i := FirstDifference(masks[k], masks[l], 0, n);
      var a, b := Chosen(masks[k], n), Chosen(masks[l], n);
      assert i in a && i !in b && (forall j: nat :: j < i ==> (j in a <==> j in b));
    }
  }

  lemma {:induction false} FirstDifference(a: nat, b: nat, i: nat, n: nat) returns (k: nat)
    requires LowOrder(a, b, i, n) < 0
    ensures i <= k < n && Bit(a, k) && !Bit(b, k) && (forall j :: i <= j < k ==> Bit(a, j) == Bit(b, j))
    decreases n - i
  {
    if Bit(a, i) != Bit(b, i) {
      k := i;
    } else {
      k := FirstDifference(a, b, i + 1, n);
    }
  }
}
