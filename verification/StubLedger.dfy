/**
 * The in-memory ledger of apps/agent/src/kit-stub.ts: treasuries seeded with USDC, conduit requests bound to an intent
 * by its nonce, a venue with fixed prices, and a set of used nonces.
 *
 * Addresses are compared without regard to case throughout the source, so they are plain values here. The placeholder
 * addresses of the chain table are hashes of distinct labels, so they are distinct constructors.
 */
module StubLedger {
  import opened Wrappers
  import opened WeightedRule
  import opened Text

  datatype ChainKey = Local | ArcTestnet | AvaxFuji | ArbSepolia | BaseSepolia | Arc | Avax

  datatype Address = Usdc(chain: ChainKey) | Eurc(chain: ChainKey) | Vault(chain: ChainKey) | Outside(n: nat)

  datatype Symbol = USDC | EURC | SHARES | TOKENS

  datatype Kind = Swap | EarnDeposit | Custom

  type Nonce = nat

  /** Amounts are unsigned: the encoding behind the nonce refuses any other. */
  datatype Intent = Intent(target: Address, data: seq<nat>, tokenIn: Address, amountIn: nat, tokenOut: Address,
                           minOut: nat, beneficiary: Address, deadline: nat)

  datatype Authorization = Authorization(token: Address, from: Address, value: nat, validBefore: nat, nonce: Nonce)

  datatype Request = Request(chain: ChainKey, intent: Intent, authorization: Authorization, kind: Kind)

  datatype Treasury = Treasury(owners: seq<Member>, threshold: int, allowlist: seq<Address>, balances: map<Address,
                               int>)

  /** What a treasury is deployed with, on every chain alike. */
  datatype Charter = Charter(address: Address, owners: seq<Member>, threshold: int, allowlist: seq<Address>)

  datatype Deployed = Deployed(chain: ChainKey, charter: Charter)

  datatype Key = Key(chain: ChainKey, treasury: Address)

  datatype State = State(treasuries: map<Key, Treasury>, used: set<(ChainKey, Nonce)>, txCounter: nat)

  datatype Error = SameToken | NoConduit | NoTreasury | NotAnOwner | UnderThreshold
                 | AlreadyUsed | IntentExpired | NoSessionKey | Insufficient | BelowFloor

  datatype Receipt = Receipt(gained: nat, tokenOut: Address, tx: nat)

  const SEED_USDC := 1_000_000_000

  // ---- Chains ----

  /** The two main nets have neither a conduit nor targets. */
  predicate IsSandbox(c: ChainKey) {
    !c.Arc? && !c.Avax?
  }

  function SymbolOf(c: ChainKey, token: Address): Symbol {
    if token == Usdc(c) then USDC
    else if token == Eurc(c) then EURC
    else if IsSandbox(c) && token == Vault(c) then SHARES
    else TOKENS
  }

  // ---- Requests ----

  /** `assemble`: the authorization repeats the intent and carries its nonce. */
  function Assemble(c: ChainKey, treasury: Address, kind: Kind, draft: Intent, deadline: nat, hash: Intent -> Nonce):
      Result<Request, Error>
  {
    if !IsSandbox(c) then Err(NoConduit)
    else
      var full := draft.(beneficiary := treasury, deadline := deadline);
      Ok(Request(c, full, Authorization(full.tokenIn, treasury, full.amountIn, deadline, hash(full)), kind))
  }

  function TokenOf(c: ChainKey, eurc: bool): Address {
    if eurc then Eurc(c) else Usdc(c)
  }

  /** `buildSwapRequest`; the two tokens are USDC or EURC, EURC where the flag is set. */
  function BuildSwapRequest(c: ChainKey, treasury: Address, fromEurc: bool, intoEurc: bool, amountIn: nat, minOut: nat,
                            target: Address,
                            data: seq<nat>, deadline: nat, hash: Intent -> Nonce): Result<Request, Error>
  {
    if fromEurc == intoEurc then Err(SameToken)
    else
      Assemble(c, treasury, Swap,
               Intent(target, data, TokenOf(c, fromEurc), amountIn, TokenOf(c, intoEurc), minOut, treasury, deadline),
               deadline, hash)
  }

  /** A swap the venue has a price for. */
  predicate Priced(r: Request) {
    && r.kind.Swap?
    && SymbolOf(r.chain, r.intent.tokenIn) in {USDC, EURC} && SymbolOf(r.chain, r.intent.tokenOut) in {USDC, EURC}
    && r.intent.tokenIn != r.intent.tokenOut
  }

  /** The nonce is that of the intent, as `assemble` sets it. */
  predicate Bound(r: Request, hash: Intent -> Nonce) {
    r.authorization.nonce == hash(r.intent)
  }

  /**
   * A built swap is priced and carries its own nonce; one is built exactly for two tokens on a chain with a conduit.
   */
  lemma BuiltSwap(c: ChainKey, treasury: Address, fromEurc: bool, intoEurc: bool, amountIn: nat, minOut: nat,
                  target: Address,
                  data: seq<nat>, deadline: nat, hash: Intent -> Nonce)
    ensures var b := BuildSwapRequest(c, treasury, fromEurc, intoEurc, amountIn, minOut, target, data, deadline, hash);
      && (b.Ok? <==> fromEurc != intoEurc && IsSandbox(c))
      && (b.Ok? ==>
            && Priced(b.value) && Bound(b.value, hash)
            && b.value.intent.beneficiary == treasury == b.value.authorization.from
            && b.value.authorization.value == b.value.intent.amountIn
            && b.value.authorization.token == b.value.intent.tokenIn)
  {
  }

  // ---- Approval ----

  /** The checks of `approveWithQuorum`: it adds up the weights of the list as given. */
  function Approve(s: State, r: Request, signers: seq<string>): Result<Request, Error> {
    var key := Key(r.chain, r.intent.beneficiary);
    if key !in s.treasuries then Err(NoTreasury)
    else
      var t := s.treasuries[key];
      if exists k :: 0 <= k < |signers| && !IsOwner(t.owners, signers[k]) then Err(NotAnOwner)
      else if SignersWeight(t.owners, signers) < t.threshold then Err(UnderThreshold)
      else Ok(r)
  }

  /** The treasury a request names, with distinct owners. */
  ghost predicate Governs(s: State, r: Request) {
    && Key(r.chain, r.intent.beneficiary) in s.treasuries
    && DistinctIds(s.treasuries[Key(r.chain, r.intent.beneficiary)].owners)
  }

  /** The approval of this list says what the weighted rule says of its set. */
  ghost predicate Faithful(s: State, r: Request, signers: seq<string>)
    requires Governs(s, r)
  {
    var t := s.treasuries[Key(r.chain, r.intent.beneficiary)];
    Approve(s, r, signers).Ok?
    <==> (forall x :: x in signers ==> IsOwner(t.owners, x)) && Wins(t.owners, t.threshold, IdSet(signers))
  }

  /** For distinct signers the approval decides the weighted rule. */
  lemma ApprovalDecidesTheRule(s: State, r: Request, signers: seq<string>)
    requires Governs(s, r) && DistinctTexts(signers)
    ensures Faithful(s, r, signers)
  {
    var t := s.treasuries[Key(r.chain, r.intent.beneficiary)];
    if forall x :: x in signers ==> IsOwner(t.owners, x) {
      SignersWeighTheirOwners(t.owners, signers);
    }
  }

  lemma {:induction false} DistinctShrinks(xs: seq<string>)
    ensures |Distinct(xs)| <= |xs| && (|Distinct(xs)| == |xs| ==> Distinct(xs) == xs)
  {
    if xs != [] {
      DistinctShrinks(xs[..|xs| - 1]);
      assert xs == xs[..|xs| - 1] + [xs[|xs| - 1]];
    }
  }

  function UnitOwners(ids: seq<string>): (r: seq<Member>)
    ensures |r| == |ids| && forall i :: 0 <= i < |r| ==> r[i] == Member(ids[i], 1)
  {
    seq(|ids|, i requires 0 <= i < |ids| => Member(ids[i], 1))
  }

  lemma {:induction false} UnitWeightBound(owners: seq<Member>, chosen: set<nat>, n: nat)
    requires n <= |owners| && forall i :: 0 <= i < |owners| ==> owners[i].weight == 1
    ensures WeightAt(owners, chosen, n) <= n
  {
    if n > 0 {
      UnitWeightBound(owners, chosen, n - 1);
    }
  }

  lemma {:induction false} UnitSignersWeigh(ids: seq<string>, signers: seq<string>)
    requires DistinctTexts(ids) && forall x :: x in signers ==> x in ids
    ensures SignersWeight(UnitOwners(ids), signers) == |signers|
    ensures forall x :: x in signers ==> IsOwner(UnitOwners(ids), x)
  {
    if signers != [] {
      var last := signers[|signers| - 1];
      UnitSignersWeigh(ids, signers[..|signers| - 1]);
      assert signers == signers[..|signers| - 1] + [last];
      assert last in signers;
      var i :| 0 <= i < |ids| && ids[i] == last;
      assert UnitOwners(ids)[i].id == last;
      OwnerWeightAt(UnitOwners(ids), i);
    }
  }

  /** A treasury whose owners each weigh one, all of whom would have to sign as often as the list has entries. */
  lemma RepeatsAreMiscounted(r: Request, signers: seq<string>) returns (s: State)
    requires !DistinctTexts(signers)
    ensures Governs(s, r) && !Faithful(s, r, signers)
  {
    var ids := Distinct(signers);
    var owners := UnitOwners(ids);
    s := State(map[Key(r.chain, r.intent.beneficiary) := Treasury(owners, |signers|, [], map[])], {}, 0);
    DistinctShrinks(signers);
    UnitSignersWeigh(ids, signers);
    UnitWeightBound(owners, Positions(owners, IdSet(signers)), |owners|);
    assert forall k :: 0 <= k < |signers| ==> signers[k] in signers;
  }

  /** So the sum over the list is the rule, whatever the treasury, exactly when no signer is repeated. */
  lemma ApprovalIsFaithfulExactlyToDistinctLists(r: Request, signers: seq<string>)
    ensures DistinctTexts(signers) <==> forall s :: Governs(s, r) ==> Faithful(s, r, signers)
  {
    if DistinctTexts(signers) {
      forall s | Governs(s, r)
        ensures Faithful(s, r, signers)
      {
        ApprovalDecidesTheRule(s, r, signers);
      }
    } else {
      var s := RepeatsAreMiscounted(r, signers);
      assert Governs(s, r);
    }
  }

  // ---- The venue and the ledger ----

  /** 1 USDC buys 0.80 EURC and 1 EURC buys 1.25 USDC, rounded down; everything else is one to one. */
  function SimulateGain(r: Request): nat {
    var i := r.intent;
    if !r.kind.Swap? then i.amountIn
    else
      var inSym, outSym := SymbolOf(r.chain, i.tokenIn), SymbolOf(r.chain, i.tokenOut);
      if inSym == USDC && outSym == EURC then i.amountIn * 8000 / 10000
      else if inSym == EURC && outSym == USDC then i.amountIn * 12500 / 10000
      else i.amountIn
  }

  function BalanceOf(t: Treasury, token: Address): int {
    if token in t.balances then t.balances[token] else 0
  }

  function Moved(t: Treasury, i: Intent, gained: nat): Treasury {
    var taken := t.(balances := t.balances[i.tokenIn := BalanceOf(t, i.tokenIn) - i.amountIn]);
    taken.(balances := taken.balances[i.tokenOut := BalanceOf(taken, i.tokenOut) + gained])
  }

  /** What `submitApproved` refuses, in its order. */
  function Refusal(s: State, r: Request, now: nat, hasKey: bool): Option<Error> {
    var key := Key(r.chain, r.intent.beneficiary);
    if (r.chain, r.authorization.nonce) in s.used then Some(AlreadyUsed)
    else if now > r.intent.deadline then Some(IntentExpired)
    else if !hasKey then Some(NoSessionKey)
    else if key !in s.treasuries then Some(NoTreasury)
    else if BalanceOf(s.treasuries[key], r.intent.tokenIn) < r.intent.amountIn then Some(Insufficient)
    else if SimulateGain(r) < r.intent.minOut then Some(BelowFloor)
    else None
  }

  function Submit(s: State, r: Request, now: nat, hasKey: bool): State {
    var key := Key(r.chain, r.intent.beneficiary);
    if Refusal(s, r, now, hasKey).Some? then s
    else
      State(s.treasuries[key := Moved(s.treasuries[key], r.intent, SimulateGain(r))],
            s.used + {(r.chain, r.authorization.nonce)},
            s.txCounter + 1)
  }

  function NewTreasury(charter: Charter, c: ChainKey): Treasury {
    Treasury(charter.owners, charter.threshold, charter.allowlist, map[Usdc(c) := SEED_USDC])
  }

  function Deploy(s: State, charter: Charter, chains: seq<ChainKey>): State {
    if chains == [] then s
    else
      var c := chains[|chains| - 1];
      var before := Deploy(s, charter, chains[..|chains| - 1]);
      before.(treasuries := before.treasuries[Key(c, charter.address) := NewTreasury(charter, c)])
  }

  const INITIAL := State(map[], {}, 0)

  // ---- Runs ----

  datatype Call =
    | DeployCall(charter: Charter, chains: seq<ChainKey>)
    | SubmitCall(request: Request, now: nat, hasKey: bool)

  /** The ledger, and the requests executed so far in order. */
  datatype History = History(state: State, log: seq<Request>)

  function Step(h: History, call: Call): History {
    match call
    case DeployCall(charter, chains) => h.(state := Deploy(h.state, charter, chains))
    case SubmitCall(r, now, hasKey) =>
      if Refusal(h.state, r, now, hasKey).Some? then h
      else History(Submit(h.state, r, now, hasKey), h.log + [r])
  }

  function Run(start: State, calls: seq<Call>): History {
    if calls == [] then History(start, [])
    else Step(Run(start, calls[..|calls| - 1]), calls[|calls| - 1])
  }

  // ---- One submission ----

  function Holding(s: State, key: Key, token: Address): int {
    if key in s.treasuries then BalanceOf(s.treasuries[key], token) else 0
  }

  /** What one submission does to every balance of every treasury, and to the rest of the ledger. */
  lemma SubmitMovesExactly(s: State, r: Request, now: nat, hasKey: bool, key: Key, token: Address)
    ensures var s', done := Submit(s, r, now, hasKey), Refusal(s, r, now, hasKey).None?;
      var own := key == Key(r.chain, r.intent.beneficiary);
      && Holding(s', key, token)
         == Holding(s, key, token)
            - (if done && own && token == r.intent.tokenIn then r.intent.amountIn else 0)
            + (if done && own && token == r.intent.tokenOut then SimulateGain(r) else 0)
      && (done ==> SimulateGain(r) >= r.intent.minOut && (r.chain, r.authorization.nonce) !in s.used)
      && (!done ==> s' == s)
      && s'.treasuries.Keys == s.treasuries.Keys
  {
  }

  // ---- An intent executes once ----

  predicate Logged(h: History) {
    && h.state.txCounter == |h.log|
    && (forall i :: 0 <= i < |h.log| ==> (h.log[i].chain, h.log[i].authorization.nonce) in h.state.used)
    && (forall u :: u in h.state.used ==>
          exists i :: 0 <= i < |h.log| && (h.log[i].chain, h.log[i].authorization.nonce) == u)
    && (forall i, j :: 0 <= i < j < |h.log| && h.log[i].chain == h.log[j].chain
          ==> h.log[i].authorization.nonce != h.log[j].authorization.nonce)
  }

  lemma {:induction false} DeployKeepsNonces(s: State, charter: Charter, chains: seq<ChainKey>)
    ensures var d := Deploy(s, charter, chains); d.used == s.used && d.txCounter == s.txCounter
  {
    if chains != [] {
      DeployKeepsNonces(s, charter, chains[..|chains| - 1]);
    }
  }

  lemma SubmitKeepsLogged(h: History, r: Request, now: nat, hasKey: bool)
    requires Logged(h) && Refusal(h.state, r, now, hasKey).None?
    ensures Logged(History(Submit(h.state, r, now, hasKey), h.log + [r]))
  {
    var log := h.log + [r];
    forall u | u in h.state.used
      ensures exists i :: 0 <= i < |log| && (log[i].chain, log[i].authorization.nonce) == u
    {
      var i :| 0 <= i < |h.log| && (h.log[i].chain, h.log[i].authorization.nonce) == u;
      assert log[i] == h.log[i];
    }
    assert log[|h.log|] == r;
  }

  /** Over any run a nonce executes at most once on each chain, and the used set records exactly the executions. */
  lemma {:induction false} NoncesExecuteOnce(calls: seq<Call>)
    ensures Logged(Run(INITIAL, calls))
  {
    if calls != [] {
      NoncesExecuteOnce(calls[..|calls| - 1]);
      var h, call := Run(INITIAL, calls[..|calls| - 1]), calls[|calls| - 1];
      match call
      case DeployCall(charter, chains) => DeployKeepsNonces(h.state, charter, chains);
      case SubmitCall(r, now, hasKey) =>
        if Refusal(h.state, r, now, hasKey).None? {
          SubmitKeepsLogged(h, r, now, hasKey);
        }
    }
  }

  predicate Submits(calls: seq<Call>, r: Request) {
    exists k :: 0 <= k < |calls| && calls[k].SubmitCall? && calls[k].request == r
  }

  lemma {:induction false} LogWasSubmitted(start: State, calls: seq<Call>)
    ensures forall i :: 0 <= i < |Run(start, calls).log| ==> Submits(calls, Run(start, calls).log[i])
  {
    if calls != [] {
      var init := calls[..|calls| - 1];
      LogWasSubmitted(start, init);
      var before, log := Run(start, init).log, Run(start, calls).log;
      forall i | 0 <= i < |log|
        ensures Submits(calls, log[i])
      {
        if i < |before| {
          var k :| 0 <= k < |init| && init[k].SubmitCall? && init[k].request == before[i];
          assert calls[k] == init[k];
        } else {
          assert calls[|calls| - 1].request == log[i];
        }
      }
    }
  }

  ghost predicate Injective(hash: Intent -> Nonce) {
    forall a, b :: hash(a) == hash(b) ==> a == b
  }

  /** When every submitted request carries its own intent's nonce, no intent executes twice on a chain. */
  lemma IntentsExecuteOnce(calls: seq<Call>, hash: Intent -> Nonce)
    requires forall k :: 0 <= k < |calls| && calls[k].SubmitCall? ==> Bound(calls[k].request, hash)
    ensures var log := Run(INITIAL, calls).log;
      forall i, j :: 0 <= i < j < |log| && log[i].chain == log[j].chain ==> log[i].intent != log[j].intent
  {
    NoncesExecuteOnce(calls);
    LogWasSubmitted(INITIAL, calls);
    var log := Run(INITIAL, calls).log;
    forall i | 0 <= i < |log|
      ensures Bound(log[i], hash)
    {
      assert Submits(calls, log[i]);
    }
  }

  /** With an injective nonce, what is refused as already used is exactly an intent that has executed on that chain. */
  lemma UsedMeansExecuted(calls: seq<Call>, hash: Intent -> Nonce, r: Request)
    requires Injective(hash) && Bound(r, hash)
    requires forall k :: 0 <= k < |calls| && calls[k].SubmitCall? ==> Bound(calls[k].request, hash)
    ensures var h := Run(INITIAL, calls);
      (r.chain, r.authorization.nonce) in h.state.used
      <==> exists i :: 0 <= i < |h.log| && h.log[i].chain == r.chain && h.log[i].intent == r.intent
  {
    NoncesExecuteOnce(calls);
    LogWasSubmitted(INITIAL, calls);
    var h := Run(INITIAL, calls);
    forall i | 0 <= i < |h.log|
      ensures Bound(h.log[i], hash)
    {
      assert Submits(calls, h.log[i]);
    }
    if (r.chain, r.authorization.nonce) in h.state.used {
      var i :| 0 <= i < |h.log| && (h.log[i].chain, h.log[i].authorization.nonce) == (r.chain, r.authorization.nonce);
      assert Bound(h.log[i], hash);
    }
  }

  /** The request for the same intent under another nonce. */
  function Renonced(r: Request, nonce: Nonce): Request {
    r.(authorization := r.authorization.(nonce := nonce))
  }

  /** What is left of the spent token once `r` has executed. */
  function LeftAfter(s: State, r: Request): int {
    Holding(s, Key(r.chain, r.intent.beneficiary), r.intent.tokenIn) - r.intent.amountIn
    + if r.intent.tokenOut == r.intent.tokenIn then SimulateGain(r) else 0
  }

  /**
   * `submitApproved` trusts the nonce it is given. Once a request has executed, its intent executes again if and only
   * if it comes under a nonce that is neither the first one nor used before, in time, with a key, and still covered.
   */
  lemma AgainExactlyUnderAFreshNonce(s: State, r: Request, now: nat, hasKey: bool, nonce: Nonce, later: nat, key: bool)
    requires Refusal(s, r, now, hasKey).None?
    ensures Refusal(Submit(s, r, now, hasKey), Renonced(r, nonce), later, key).None?
       <==> && nonce != r.authorization.nonce && (r.chain, nonce) !in s.used
            && later <= r.intent.deadline && key && LeftAfter(s, r) >= r.intent.amountIn
  {
    SubmitMovesExactly(s, r, now, hasKey, Key(r.chain, r.intent.beneficiary), r.intent.tokenIn);
  }

  /** A swap of `amount` USDC by a freshly deployed treasury, under any nonce. */
  function FreshSwap(treasury: Address, amount: nat, nonce: Nonce): Request {
    var intent := Intent(Outside(0), [], Usdc(Local), amount, Eurc(Local), 0, treasury, 0);
    Request(Local, intent, Authorization(Usdc(Local), treasury, amount, 0, nonce), Swap)
  }

  /** From an empty ledger: deploy, swap, and swap the same intent again under another nonce. */
  lemma ForeignNonceRepeats(charter: Charter, amount: nat, nonce: Nonce, other: Nonce)
    requires 2 * amount <= SEED_USDC && nonce != other
    ensures var r := FreshSwap(charter.address, amount, nonce);
      Run(INITIAL, [DeployCall(charter, [Local]), SubmitCall(r, 0, true), SubmitCall(Renonced(r, other), 0, true)]).log
      == [r, Renonced(r, other)]
  {
    var r := FreshSwap(charter.address, amount, nonce);
    var a, b, c := DeployCall(charter, [Local]), SubmitCall(r, 0, true), SubmitCall(Renonced(r, other), 0, true);
    var s := Deploy(INITIAL, charter, [Local]);
    DeployHoldings(INITIAL, charter, [Local], Key(Local, charter.address), Usdc(Local));
    assert [Local][..0] == [] && Deploy(INITIAL, charter, []) == INITIAL;
    assert Refusal(s, r, 0, true).None?;
    AgainExactlyUnderAFreshNonce(s, r, 0, true, other, 0, true);
    RunThree(a, b, c);
  }

  lemma RunThree(a: Call, b: Call, c: Call)
    ensures Run(INITIAL, [a, b, c]) == Step(Step(Step(History(INITIAL, []), a), b), c)
  {
    assert [a, b, c][..2] == [a, b] && [a, b][..1] == [a] && [a][..0] == [];
    assert Run(INITIAL, []) == History(INITIAL, []);
    assert Run(INITIAL, [a]) == Step(History(INITIAL, []), a);
  }

  // ---- Balances ----

  ghost predicate Solvent(s: State) {
    forall key, token :: Holding(s, key, token) >= 0
  }

  lemma {:induction false} DeployHoldings(s: State, charter: Charter, chains: seq<ChainKey>,
                                          key: Key, token: Address)
    ensures Holding(Deploy(s, charter, chains), key, token)
         == if key.treasury == charter.address && key.chain in chains
            then (if token == Usdc(key.chain) then SEED_USDC else 0)
            else Holding(s, key, token)
  {
    if chains != [] {
      var init := chains[..|chains| - 1];
      DeployHoldings(s, charter, init, key, token);
      assert chains == init + [chains[|chains| - 1]];
    }
  }

  /** No run drives a balance below zero. */
  lemma {:induction false} BalancesStayNonNegative(start: State, calls: seq<Call>)
    requires Solvent(start)
    ensures Solvent(Run(start, calls).state)
  {
    if calls != [] {
      var h, call := Run(start, calls[..|calls| - 1]), calls[|calls| - 1];
      BalancesStayNonNegative(start, calls[..|calls| - 1]);
      forall key, token
        ensures Holding(Run(start, calls).state, key, token) >= 0
      {
        match call
        case DeployCall(charter, chains) => DeployHoldings(h.state, charter, chains, key, token);
        case SubmitCall(r, now, hasKey) =>
          SubmitMovesExactly(h.state, r, now, hasKey, key, token);
          assert Holding(h.state, Key(r.chain, r.intent.beneficiary), r.intent.tokenIn) >= 0;
      }
    }
  }

  // ---- Swaps make no money ----

  function Price(c: ChainKey, token: Address): nat {
    if token == Usdc(c) then 4 else if token == Eurc(c) then 5 else 0
  }

  /** A treasury's USDC and EURC at the venue's rate, in quarters of a base unit of USDC. */
  function Worth(s: State, key: Key): int {
    4 * Holding(s, key, Usdc(key.chain)) + 5 * Holding(s, key, Eurc(key.chain))
  }

  /** What comes in at its price, less what goes out at its price. */
  function PriceDifference(r: Request): int {
    Price(r.chain, r.intent.tokenOut) * SimulateGain(r) - (Price(r.chain, r.intent.tokenIn) * r.intent.amountIn) as int
  }

  lemma PriceDifferenceByToken(r: Request)
    ensures var i, c, g := r.intent, r.chain, SimulateGain(r);
      PriceDifference(r)
      == 4 * ((if i.tokenOut == Usdc(c) then g else 0) - (if i.tokenIn == Usdc(c) then i.amountIn else 0))
       + 5 * ((if i.tokenOut == Eurc(c) then g else 0) - (if i.tokenIn == Eurc(c) then i.amountIn else 0))
  {
  }

  lemma SubmitChangesWorth(s: State, r: Request, now: nat, hasKey: bool, key: Key)
    ensures Worth(Submit(s, r, now, hasKey), key) - Worth(s, key)
         == if Refusal(s, r, now, hasKey).None? && key == Key(r.chain, r.intent.beneficiary)
            then PriceDifference(r)
            else 0
  {
    SubmitMovesExactly(s, r, now, hasKey, key, Usdc(key.chain));
    SubmitMovesExactly(s, r, now, hasKey, key, Eurc(key.chain));
    PriceDifferenceByToken(r);
  }

  /** A priced swap loses only what rounding takes: at most four quarters of a base unit. */
  lemma PricedSwapRounds(r: Request)
    requires Priced(r)
    ensures -4 <= PriceDifference(r) <= 0
  {
    var a := r.intent.amountIn;
    if r.intent.tokenIn == Usdc(r.chain) {
      assert a * 8000 / 10000 == 4 * a / 5;
    } else {
      assert a * 12500 / 10000 == 5 * a / 4;
    }
  }

  lemma OneToOne(up: int, down: int, a: nat)
    ensures up * a - down * a > 0 <==> a > 0 && up > down
  {
    assert up * a - down * a == (up - down) * a;
    if up <= down {
      assert (up - down) * a <= 0;
    }
  }

  /** Without a price the venue trades one to one. */
  lemma UnpricedGain(r: Request)
    requires !Priced(r)
    ensures SimulateGain(r) == r.intent.amountIn
  {
  }

  /**
   * A submission raises its treasury's worth exactly when the venue has no price for it and it trades up one to one.
   */
  lemma WorthRisesExactlyWhen(s: State, r: Request, now: nat, hasKey: bool)
    requires Refusal(s, r, now, hasKey).None?
    ensures var key := Key(r.chain, r.intent.beneficiary);
      Worth(Submit(s, r, now, hasKey), key) > Worth(s, key)
      <==> !Priced(r) && r.intent.amountIn > 0 && Price(r.chain, r.intent.tokenOut) > Price(r.chain, r.intent.tokenIn)
  {
    SubmitChangesWorth(s, r, now, hasKey, Key(r.chain, r.intent.beneficiary));
    if Priced(r) {
      PricedSwapRounds(r);
    } else {
      UnpricedGain(r);
      OneToOne(Price(r.chain, r.intent.tokenOut), Price(r.chain, r.intent.tokenIn), r.intent.amountIn);
    }
  }

  /** Submissions for this treasury are priced swaps, and it is not deployed again. */
  predicate OnlySwaps(calls: seq<Call>, key: Key) {
    forall k :: 0 <= k < |calls| ==>
      match calls[k]
      case DeployCall(charter, chains) => !(charter.address == key.treasury && key.chain in chains)
      case SubmitCall(r, _, _) => Key(r.chain, r.intent.beneficiary) == key ==> Priced(r)
  }

  function SwapsOf(log: seq<Request>, key: Key): nat {
    if log == [] then 0
    else
      var last := log[|log| - 1];
      SwapsOf(log[..|log| - 1], key) + if Key(last.chain, last.intent.beneficiary) == key then 1 else 0
  }

  /** Over any run of swaps a treasury's worth never rises, and falls by at most four per executed swap. */
  lemma {:induction false} SwapsMakeNoMoney(start: State, calls: seq<Call>, key: Key)
    requires OnlySwaps(calls, key)
    ensures var h := Run(start, calls);
      Worth(start, key) - 4 * SwapsOf(h.log, key) <= Worth(h.state, key) <= Worth(start, key)
  {
    if calls != [] {
      var init, call := calls[..|calls| - 1], calls[|calls| - 1];
      assert forall k :: 0 <= k < |init| ==> init[k] == calls[k];
      SwapsMakeNoMoney(start, init, key);
      var h := Run(start, init);
      assert calls[|calls| - 1] == call;
      match call
      case DeployCall(charter, chains) =>
        DeployHoldings(h.state, charter, chains, key, Usdc(key.chain));
        DeployHoldings(h.state, charter, chains, key, Eurc(key.chain));
      case SubmitCall(r, now, hasKey) =>
        SubmitChangesWorth(h.state, r, now, hasKey, key);
        assert (h.log + [r])[..|h.log + [r]| - 1] == h.log;
        if Key(r.chain, r.intent.beneficiary) == key {
          PricedSwapRounds(r);
        }
    }
  }

  // ---- The ledger as the source keeps it ----

  class StubKit {
    var treasuries: map<Key, Treasury>
    var usedNonces: set<(ChainKey, Nonce)>
    var txCounter: nat

    ghost function Snapshot(): State
      reads this
    {
      State(treasuries, usedNonces, txCounter)
    }

    constructor ()
      ensures Snapshot() == INITIAL
    {
      treasuries, usedNonces, txCounter := map[], {}, 0;
    }

    method Reset()
      modifies this
      ensures Snapshot() == INITIAL
    {
      treasuries, usedNonces, txCounter := map[], {}, 0;
    }

    method DeployTreasury(charter: Charter, chains: seq<ChainKey>) returns (deployed: seq<Deployed>)
      modifies this
      ensures Snapshot() == Deploy(old(Snapshot()), charter, chains)
      ensures |deployed| == |chains| && forall i :: 0 <= i < |chains| ==> deployed[i] == Deployed(chains[i], charter)
    {
      deployed := [];
      assert chains[..|chains|] == chains;
      for i := 0 to |chains|
        invariant Snapshot() == Deploy(old(Snapshot()), charter, chains[..i])
        invariant |deployed| == i && forall k :: 0 <= k < i ==> deployed[k] == Deployed(chains[k], charter)
      {
        assert chains[..i + 1][..i] == chains[..i];
        treasuries := treasuries[Key(chains[i], charter.address) := NewTreasury(charter, chains[i])];
        deployed := deployed + [Deployed(chains[i], charter)];
      }
    }

    /** Fails without a trace, or executes: the balances, the nonce and the counter move together. */
    method SubmitApproved(r: Request, now: nat, hasKey: bool) returns (result: Result<Receipt, Error>)
      modifies this
      ensures Snapshot() == Submit(old(Snapshot()), r, now, hasKey)
      ensures result == match Refusal(old(Snapshot()), r, now, hasKey)
                        case Some(e) => Err(e)
                        case None => Ok(Receipt(SimulateGain(r), r.intent.tokenOut, old(txCounter) + 1))
      ensures result.Err? ==> Snapshot() == old(Snapshot())
    {
      var nonceKey := (r.chain, r.authorization.nonce);
      if nonceKey in usedNonces {
        return Err(AlreadyUsed);
      }
      if now > r.intent.deadline {
        return Err(IntentExpired);
      }
      if !hasKey {
        return Err(NoSessionKey);
      }
      var key := Key(r.chain, r.intent.beneficiary);
      if key !in treasuries {
        return Err(NoTreasury);
      }
      var t := treasuries[key];
      var have := BalanceOf(t, r.intent.tokenIn);
      if have < r.intent.amountIn {
        return Err(Insufficient);
      }
      var gained := SimulateGain(r);
      if gained < r.intent.minOut {
        return Err(BelowFloor);
      }
      usedNonces := usedNonces + {nonceKey};
      t := t.(balances := t.balances[r.intent.tokenIn := have - r.intent.amountIn]);
      t := t.(balances := t.balances[r.intent.tokenOut := BalanceOf(t, r.intent.tokenOut) + gained]);
      treasuries := treasuries[key := t];
      txCounter := txCounter + 1;
      return Ok(Receipt(gained, r.intent.tokenOut, txCounter));
    }
  }
}
