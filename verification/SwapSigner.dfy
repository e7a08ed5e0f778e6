/**
 * The Ledger swap signer of packages/ledger/src/native/ledger-native.service.ts, as a transition system.
 *
 * Calls run concurrently and interleave at `await` points. A state holds the closure variables that all calls share,
 * a log of what became visible outside, and one phase per call in flight. Each step is the code one call runs between
 * two awaits. What the awaited party answers is an argument of the step.
 */
module SwapSigner {
  import opened Wrappers
  import opened Text

  datatype Tx = Tx(to: string, data: string, value: int)

  /** The transaction a caller asks for; `value` may be left out. */
  datatype Request = Request(to: string, data: string, value: Option<int>)

  /** What the user reviewed: the transactions in order, or one order hash. */
  datatype Plan = Plan(chainId: int, steps: seq<Tx>, order: Option<string>)

  datatype Pending = Pending(hash: string, step: nat)

  datatype Kind = SendCall | OrderCall | ResumeCall

  datatype Phase =
    | Entering(expected: Tx)
    | Entered(expected: Tx)
    | Preparing(expected: Tx)
    | Signing(prepared: Tx)
    | Rechecking(prepared: Tx)
    | Sending
    | Confirming(current: Pending)
    | OrderEntering
    | OrderEntered
    | OrderConnecting
    | OrderSigning
    | OrderRechecking
    | Resuming
  {
    predicate OfOrder() {
      OrderEntering? || OrderEntered? || OrderConnecting? || OrderSigning? || OrderRechecking?
    }
  }

  /**
   * What a call sees when an await ends. `Throws` also covers the quote checks that depend on the clock. A transaction
   * signature is the byte `v` and a pair that recovers the registered owner under one parity at most.
   */
  datatype Reply =
    | Throws
    | Passes
    | Prepared(chainId: int, tx: Tx, knownType: bool)
    | Signature(v: int, ownerParity: Option<nat>)
    | OrderSignature(byOwner: bool)
    | Sealed(hash: string)
    | RpcHash(hash: string)
    | Receipt(hash: string, success: bool)

  datatype Event =
    | SignRequested(call: nat, step: nat, tx: Tx)
    | Broadcast(call: nat, step: nat, tx: Tx, hash: string)
    | ReceiptSeen(call: nat, hash: string, success: bool)
    | OrderRequested(call: nat)
    | OrderReleased(call: nat)
    | Closed

  datatype Action =
    | CallSend(request: Request, quoteHolds: bool)
    | CallOrder(hash: string, quoteHolds: bool)
    | CallResume
    | CallClose
    | Wake(call: nat, reply: Reply)

  /** The closure variables, the kind of every call admitted so far, and the log. */
  datatype Vars = Vars(
    busy: bool,
    closed: bool,
    nextStep: nat,
    attempted: int,
    orderAttempted: bool,
    pending: Option<Pending>,
    kinds: seq<Kind>,
    log: seq<Event>)

  datatype State = State(v: Vars, calls: map<nat, Phase>)

  const Initial := State(Vars(false, false, 0, -1, false, None, [], []), map[])

  predicate SameTx(a: Tx, b: Tx) {
    Lower(a.to) == Lower(b.to) && Lower(a.data) == Lower(b.data) && a.value == b.value
  }

  predicate Asks(r: Request, expected: Tx) {
    SameTx(Tx(r.to, r.data, if r.value.Some? then r.value.value else 0), expected)
  }

  predicate SameHash(a: string, b: string) {
    Lower(a) == Lower(b)
  }

  // ---- The steps ----

  function Admit(s: State, phase: Phase, kind: Kind): State {
    State(s.v.(busy := true, kinds := s.v.kinds + [kind]), s.calls[|s.v.kinds| := phase])
  }

  function Note(v: Vars, e: Event): Vars {
    v.(log := v.log + [e])
  }

  function StartSend(plan: Plan, s: State, request: Request, quoteHolds: bool): State {
    if s.v.nextStep >= |plan.steps| || !Asks(request, plan.steps[s.v.nextStep]) then s
    else if s.v.pending.Some? || s.v.attempted == s.v.nextStep then s
    else if s.v.closed || s.v.busy || !quoteHolds then s
    else Admit(s, Entering(plan.steps[s.v.nextStep]), SendCall)
  }

  function StartOrder(plan: Plan, s: State, hash: string, quoteHolds: bool): State {
    if plan.order != Some(hash) || s.v.orderAttempted then s
    else if s.v.closed || s.v.busy || !quoteHolds then s
    else Admit(s, OrderEntering, OrderCall)
  }

  function StartResume(s: State): State {
    if s.v.busy || s.v.pending.None? then s else Admit(s, Resuming, ResumeCall)
  }

  predicate PreparedAsReviewed(plan: Plan, reply: Reply, expected: Tx) {
    reply.Prepared? && reply.chainId == plan.chainId && SameTx(reply.tx, expected) && reply.knownType
  }

  /** The y-parity the signer derives from the one byte a Ledger returns as `v`. */
  function RecoveredParity(v: nat): nat {
    if v <= 1 then v else (v + 1) % 2
  }

  /**
   * The recovery id is one byte and, under the parity derived from it, the recovered address is the registered owner.
   */
  predicate SignedByOwner(reply: Reply) {
    reply.Signature? && 0 <= reply.v <= 255 && reply.ownerParity == Some(RecoveredParity(reply.v))
  }

  function Requested(v: Vars, call: nat, tx: Tx): Vars {
    Note(v, SignRequested(call, v.nextStep, tx))
  }

  function Sent(v: Vars, call: nat, tx: Tx, hash: string): Vars {
    Note(v.(pending := Some(Pending(hash, v.nextStep))), Broadcast(call, v.nextStep, tx, hash))
  }

  function Settled(v: Vars, call: nat, current: Pending, reply: Reply): Vars
    requires reply.Receipt?
  {
    var seen := Note(v.(pending := None), ReceiptSeen(call, reply.hash, reply.success));
    if reply.success then seen.(nextStep := current.step + 1) else seen
  }

  /** Where a call stands after a segment: at its next await, or returned or thrown. */
  datatype Progress = Awaits(v: Vars, phase: Phase) | Ends(v: Vars)

  /** The code of one call between two awaits. */
  function Segment(plan: Plan, v: Vars, call: nat, phase: Phase, reply: Reply): Progress {
    match phase
    case Entering(expected) => if !reply.Passes? || v.closed then Ends(v) else Awaits(v, Entered(expected))
    case Entered(expected) => Awaits(v.(attempted := v.nextStep), Preparing(expected))
    case Preparing(expected) =>
      if !PreparedAsReviewed(plan, reply, expected) then Ends(v)
      else Awaits(Requested(v, call, reply.tx), Signing(reply.tx))
    case Signing(prepared) => if !SignedByOwner(reply) || v.closed then Ends(v) else Awaits(v, Rechecking(prepared))
    case Rechecking(prepared) =>
      if !reply.Sealed? || v.closed then Ends(v) else Awaits(Sent(v, call, prepared, reply.hash), Sending)
    case Sending =>
      if !reply.RpcHash? || v.pending.None? || !SameHash(reply.hash, v.pending.value.hash) then Ends(v)
      else Awaits(v, Confirming(v.pending.value))
    case Confirming(current) =>
      if !reply.Receipt? || !SameHash(reply.hash, current.hash) then Ends(v)
      else Ends(Settled(v, call, current, reply))
    case OrderEntering => if !reply.Passes? || v.closed then Ends(v) else Awaits(v, OrderEntered)
    case OrderEntered => Awaits(v.(orderAttempted := true), OrderConnecting)
    case OrderConnecting => if !reply.Passes? then Ends(v) else Awaits(Note(v, OrderRequested(call)), OrderSigning)
    case OrderSigning =>
      if !reply.OrderSignature? || !reply.byOwner || v.closed then Ends(v) else Awaits(v, OrderRechecking)
    case OrderRechecking =>
      if !reply.Passes? || v.closed then Ends(v) else Ends(Note(v, OrderReleased(call)))
    case Resuming =>
      if !reply.Passes? || v.pending.None? then Ends(v) else Awaits(v, Confirming(v.pending.value))
  }

  /** The `finally` of every call (and the `catch` of `enter`) releases the lock, by return or by throw. */
  function Advance(plan: Plan, s: State, call: nat, reply: Reply): State
    requires call in s.calls
  {
    match Segment(plan, s.v, call, s.calls[call], reply)
    case Awaits(v, phase) => State(v, s.calls[call := phase])
    case Ends(v) => State(v.(busy := false), s.calls - {call})
  }

  function Step(plan: Plan, s: State, a: Action): State {
    match a
    case CallSend(request, quoteHolds) => StartSend(plan, s, request, quoteHolds)
    case CallOrder(hash, quoteHolds) => StartOrder(plan, s, hash, quoteHolds)
    case CallResume => StartResume(s)
    case CallClose => State(Note(s.v.(closed := true), Closed), s.calls)
    case Wake(call, reply) => if call in s.calls then Advance(plan, s, call, reply) else s
  }

  function RunFrom(plan: Plan, s: State, actions: seq<Action>): State {
    if actions == [] then s
    else Step(plan, RunFrom(plan, s, actions[..|actions| - 1]), actions[|actions| - 1])
  }

  /** The state after any sequence of calls and wake-ups, in any order. */
  function Run(plan: Plan, actions: seq<Action>): State {
    RunFrom(plan, Initial, actions)
  }

  // ---- What the log must look like ----

  datatype Mark = SignMark | BroadcastMark | ReceiptMark | OrderRequestMark | OrderReleaseMark | CloseMark

  function MarkOf(e: Event): Mark {
    match e
    case SignRequested(_, _, _) => SignMark
    case Broadcast(_, _, _, _) => BroadcastMark
    case ReceiptSeen(_, _, _) => ReceiptMark
    case OrderRequested(_) => OrderRequestMark
    case OrderReleased(_) => OrderReleaseMark
    case Closed => CloseMark
  }

  /** How many events of one mark the log holds. */
  function Count(log: seq<Event>, m: Mark): nat {
    if log == [] then 0 else Count(log[..|log| - 1], m) + if MarkOf(log[|log| - 1]) == m then 1 else 0
  }

  ghost predicate SentAt(log: seq<Event>, step: nat, hash: string, i: nat) {
    i < |log| && log[i].Broadcast? && log[i].step == step && log[i].hash == hash
  }

  ghost predicate WasSent(log: seq<Event>, step: nat, hash: string) {
    exists i: nat :: SentAt(log, step, hash, i)
  }

  ghost predicate ConfirmedAt(log: seq<Event>, step: nat, i: nat, j: nat) {
    && i < j < |log|
    && log[i].Broadcast? && log[i].step == step
    && log[j].ReceiptSeen? && log[j].success && SameHash(log[j].hash, log[i].hash)
  }

  /** Step `step` was broadcast and, later, a success receipt came back for exactly that signed hash. */
  ghost predicate Confirmed(log: seq<Event>, step: nat) {
    exists i: nat, j: nat :: ConfirmedAt(log, step, i, j)
  }

  ghost predicate Reviewed(plan: Plan, step: nat, tx: Tx) {
    step < |plan.steps| && SameTx(tx, plan.steps[step])
  }

  ghost predicate OfKind(kinds: seq<Kind>, call: nat, kind: Kind) {
    call < |kinds| && kinds[call] == kind
  }

  /** `e` may follow `past`. */
  ghost predicate Allowed(plan: Plan, kinds: seq<Kind>, past: seq<Event>, e: Event) {
    match e
    case SignRequested(call, step, tx) =>
      && OfKind(kinds, call, SendCall) && Reviewed(plan, step, tx)
      && step == Count(past, SignMark) && (step > 0 ==> Confirmed(past, step - 1))
    case Broadcast(call, step, tx, hash) =>
      && OfKind(kinds, call, SendCall) && Reviewed(plan, step, tx)
      && step == Count(past, BroadcastMark) && (step > 0 ==> Confirmed(past, step - 1))
      && SignRequested(call, step, tx) in past && Closed !in past
    case ReceiptSeen(call, hash, success) =>
      OfKind(kinds, call, SendCall) || OfKind(kinds, call, ResumeCall)
    case OrderRequested(call) =>
      OfKind(kinds, call, OrderCall) && Count(past, OrderRequestMark) == 0
    case OrderReleased(call) =>
      && OfKind(kinds, call, OrderCall) && Count(past, OrderReleaseMark) == 0
      && OrderRequested(call) in past && Closed !in past
    case Closed => true
  }

  ghost predicate AllowedAt(plan: Plan, kinds: seq<Kind>, log: seq<Event>, k: nat)
    requires k < |log|
  {
    Allowed(plan, kinds, log[..k], log[k])
  }

  ghost predicate GoodLog(plan: Plan, kinds: seq<Kind>, log: seq<Event>) {
    forall k :: 0 <= k < |log| ==> AllowedAt(plan, kinds, log, k)
  }

  // ---- The invariant ----

  /** Step `nextStep` has `signed` device requests and `sent` broadcasts so far. */
  ghost predicate Tally(v: Vars, signed: nat, sent: nat) {
    Count(v.log, SignMark) == v.nextStep + signed && Count(v.log, BroadcastMark) == v.nextStep + sent
  }

  ghost predicate SendPhase(plan: Plan, v: Vars, call: nat, signed: nat) {
    OfKind(v.kinds, call, SendCall) && v.pending.None? && v.nextStep < |plan.steps| && Tally(v, signed, 0)
  }

  ghost predicate OrderPhase(v: Vars, call: nat, requested: nat) {
    && OfKind(v.kinds, call, OrderCall) && v.orderAttempted
    && Count(v.log, OrderRequestMark) == requested && Count(v.log, OrderReleaseMark) == 0
  }

  ghost predicate PhaseInv(plan: Plan, v: Vars, call: nat, phase: Phase) {
    match phase
    case Entering(expected) =>
      SendPhase(plan, v, call, 0) && v.attempted != v.nextStep && expected == plan.steps[v.nextStep]
    case Entered(expected) =>
      SendPhase(plan, v, call, 0) && v.attempted != v.nextStep && expected == plan.steps[v.nextStep]
    case Preparing(expected) =>
      SendPhase(plan, v, call, 0) && v.attempted == v.nextStep && expected == plan.steps[v.nextStep]
    case Signing(prepared) => AboutToSend(plan, v, call, prepared)
    case Rechecking(prepared) => AboutToSend(plan, v, call, prepared)
    case Sending => OfKind(v.kinds, call, SendCall) && v.pending.Some?
    case Confirming(current) =>
      (OfKind(v.kinds, call, SendCall) || OfKind(v.kinds, call, ResumeCall)) && v.pending == Some(current)
    case OrderEntering => OfKind(v.kinds, call, OrderCall) && !v.orderAttempted
    case OrderEntered => OfKind(v.kinds, call, OrderCall) && !v.orderAttempted
    case OrderConnecting => OrderPhase(v, call, 0)
    case OrderSigning => OrderPhase(v, call, 1) && OrderRequested(call) in v.log
    case OrderRechecking => OrderPhase(v, call, 1) && OrderRequested(call) in v.log
    case Resuming => OfKind(v.kinds, call, ResumeCall) && v.pending.Some?
  }

  ghost predicate AboutToSend(plan: Plan, v: Vars, call: nat, prepared: Tx) {
    && SendPhase(plan, v, call, 1) && v.attempted == v.nextStep
    && SameTx(prepared, plan.steps[v.nextStep]) && SignRequested(call, v.nextStep, prepared) in v.log
  }

  /** The lock: it is taken exactly when a call is in flight, and never by two calls. */
  ghost predicate Exclusive(s: State) {
    && (s.v.busy <==> s.calls.Keys != {})
    && (forall c, d :: c in s.calls && d in s.calls ==> c == d)
    && (forall c :: c in s.calls ==> c < |s.v.kinds|)
  }

  ghost predicate Counters(v: Vars) {
    && (v.pending.Some? ==>
          && v.pending.value.step == v.nextStep == v.attempted
          && WasSent(v.log, v.nextStep, v.pending.value.hash) && Tally(v, 1, 1))
    && v.attempted <= v.nextStep
    && v.nextStep <= Count(v.log, BroadcastMark) <= Count(v.log, SignMark) <= v.nextStep + 1
    && (v.attempted != v.nextStep ==> Tally(v, 0, 0))
    && (v.nextStep > 0 ==> Confirmed(v.log, v.nextStep - 1))
    && (Closed in v.log ==> v.closed)
    && (!v.orderAttempted ==> Count(v.log, OrderRequestMark) == Count(v.log, OrderReleaseMark) == 0)
  }

  ghost predicate VarsInv(plan: Plan, v: Vars) {
    Counters(v) && GoodLog(plan, v.kinds, v.log)
  }

  ghost predicate Inv(plan: Plan, s: State) {
    && Exclusive(s)
    && VarsInv(plan, s.v)
    && (forall c :: c in s.calls ==> PhaseInv(plan, s.v, c, s.calls[c]))
  }

  // ---- The invariant is kept ----

  lemma CountExtend(log: seq<Event>, e: Event, m: Mark)
    ensures Count(log + [e], m) == Count(log, m) + if MarkOf(e) == m then 1 else 0
  {
    assert (log + [e])[..|log|] == log;
  }

  lemma ConfirmedExtend(log: seq<Event>, e: Event, step: nat)
    requires Confirmed(log, step)
    ensures Confirmed(log + [e], step)
  {
    var i: nat, j: nat :| ConfirmedAt(log, step, i, j);
    assert ConfirmedAt(log + [e], step, i, j);
  }

  lemma WasSentExtend(log: seq<Event>, e: Event, step: nat, hash: string)
    requires WasSent(log, step, hash)
    ensures WasSent(log + [e], step, hash)
  {
    var i: nat :| SentAt(log, step, hash, i);
    assert SentAt(log + [e], step, hash, i);
  }

  lemma GoodLogExtend(plan: Plan, kinds: seq<Kind>, log: seq<Event>, e: Event)
    requires GoodLog(plan, kinds, log) && Allowed(plan, kinds, log, e)
    ensures GoodLog(plan, kinds, log + [e])
  {
    forall k | 0 <= k < |log + [e]|
      ensures AllowedAt(plan, kinds, log + [e], k)
    {
      assert (log + [e])[..k] == log[..k];
      if k == |log| {
        assert log[..k] == log;
      } else {
        assert AllowedAt(plan, kinds, log, k);
      }
    }
  }

  lemma GoodLogAdmit(plan: Plan, kinds: seq<Kind>, kind: Kind, log: seq<Event>)
    requires GoodLog(plan, kinds, log)
    ensures GoodLog(plan, kinds + [kind], log)
  {
    forall k | 0 <= k < |log|
      ensures AllowedAt(plan, kinds + [kind], log, k)
    {
      assert AllowedAt(plan, kinds, log, k);
    }
  }

  /** What logging `e` does to the counts. */
  lemma NoteCounts(v: Vars, e: Event)
    ensures Count(Note(v, e).log, SignMark) == Count(v.log, SignMark) + if e.SignRequested? then 1 else 0
    ensures Count(Note(v, e).log, BroadcastMark) == Count(v.log, BroadcastMark) + if e.Broadcast? then 1 else 0
    ensures Count(Note(v, e).log, OrderRequestMark)
         == Count(v.log, OrderRequestMark) + if e.OrderRequested? then 1 else 0
    ensures Count(Note(v, e).log, OrderReleaseMark)
         == Count(v.log, OrderReleaseMark) + if e.OrderReleased? then 1 else 0
  {
    CountExtend(v.log, e, SignMark);
    CountExtend(v.log, e, BroadcastMark);
    CountExtend(v.log, e, OrderRequestMark);
    CountExtend(v.log, e, OrderReleaseMark);
  }

  lemma NoteConfirmed(v: Vars, e: Event)
    requires v.nextStep > 0 ==> Confirmed(v.log, v.nextStep - 1)
    ensures v.nextStep > 0 ==> Confirmed(Note(v, e).log, v.nextStep - 1)
  {
    if v.nextStep > 0 {
      ConfirmedExtend(v.log, e, v.nextStep - 1);
    }
  }

  lemma AdmitKeeps(plan: Plan, s: State, phase: Phase, kind: Kind)
    requires Inv(plan, s) && !s.v.busy
    requires PhaseInv(plan, s.v.(busy := true, kinds := s.v.kinds + [kind]), |s.v.kinds|, phase)
    ensures Inv(plan, Admit(s, phase, kind))
  {
    GoodLogAdmit(plan, s.v.kinds, kind, s.v.log);
    assert |s.v.kinds| in Admit(s, phase, kind).calls;
  }

  lemma CloseKeepsPhase(plan: Plan, v: Vars, call: nat, phase: Phase)
    requires PhaseInv(plan, v, call, phase)
    ensures PhaseInv(plan, Note(v.(closed := true), Closed), call, phase)
  {
    NoteCounts(v, Closed);
  }

  lemma CloseKeepsCounters(v: Vars)
    requires Counters(v)
    ensures Counters(Note(v.(closed := true), Closed))
  {
    NoteCounts(v, Closed);
    NoteConfirmed(v, Closed);
    if v.pending.Some? {
      WasSentExtend(v.log, Closed, v.nextStep, v.pending.value.hash);
    }
    assert Note(v.(closed := true), Closed).log == Note(v, Closed).log == v.log + [Closed];
  }

  lemma CloseKeeps(plan: Plan, s: State)
    requires Inv(plan, s)
    ensures Inv(plan, Step(plan, s, CallClose))
  {
    CloseKeepsCounters(s.v);
    GoodLogExtend(plan, s.v.kinds, s.v.log, Closed);
    forall c | c in s.calls
      ensures PhaseInv(plan, Note(s.v.(closed := true), Closed), c, s.calls[c])
    {
      CloseKeepsPhase(plan, s.v, c, s.calls[c]);
    }
  }

  lemma RequestedKeeps(plan: Plan, v: Vars, call: nat, expected: Tx, tx: Tx)
    requires Counters(v) && GoodLog(plan, v.kinds, v.log)
    requires PhaseInv(plan, v, call, Preparing(expected)) && SameTx(tx, expected)
    ensures Counters(Requested(v, call, tx)) && GoodLog(plan, v.kinds, Requested(v, call, tx).log)
    ensures AboutToSend(plan, Requested(v, call, tx), call, tx)
  {
    var e := SignRequested(call, v.nextStep, tx);
    NoteCounts(v, e);
    NoteConfirmed(v, e);
    GoodLogExtend(plan, v.kinds, v.log, e);
  }

  lemma SentKeepsLog(plan: Plan, v: Vars, call: nat, tx: Tx, hash: string)
    requires Counters(v) && GoodLog(plan, v.kinds, v.log) && AboutToSend(plan, v, call, tx) && !v.closed
    ensures GoodLog(plan, v.kinds, Sent(v, call, tx, hash).log)
  {
    GoodLogExtend(plan, v.kinds, v.log, Broadcast(call, v.nextStep, tx, hash));
  }

  lemma SentKeepsCounters(plan: Plan, v: Vars, call: nat, tx: Tx, hash: string)
    requires Counters(v) && AboutToSend(plan, v, call, tx) && !v.closed
    ensures Counters(Sent(v, call, tx, hash))
  {
    var e := Broadcast(call, v.nextStep, tx, hash);
    NoteCounts(v, e);
    NoteConfirmed(v, e);
    assert SentAt(v.log + [e], v.nextStep, hash, |v.log|);
  }

  lemma SettledKeepsLog(plan: Plan, v: Vars, call: nat, current: Pending, reply: Reply)
    requires GoodLog(plan, v.kinds, v.log) && PhaseInv(plan, v, call, Confirming(current)) && reply.Receipt?
    ensures GoodLog(plan, v.kinds, Settled(v, call, current, reply).log)
  {
    GoodLogExtend(plan, v.kinds, v.log, ReceiptSeen(call, reply.hash, reply.success));
  }

  lemma ConfirmedKeepsCounters(v: Vars, call: nat, hash: string)
    requires Counters(v) && v.pending.Some? && SameHash(hash, v.pending.value.hash)
    ensures Counters(Settled(v, call, v.pending.value, Receipt(hash, true)))
  {
    var e := ReceiptSeen(call, hash, true);
    NoteCounts(v, e);
    var i: nat :| SentAt(v.log, v.nextStep, v.pending.value.hash, i);
    assert ConfirmedAt(v.log + [e], v.nextStep, i, |v.log|);
  }

  lemma RevertedKeepsCounters(v: Vars, call: nat, hash: string)
    requires Counters(v) && v.pending.Some?
    ensures Counters(Settled(v, call, v.pending.value, Receipt(hash, false)))
  {
    var e := ReceiptSeen(call, hash, false);
    NoteCounts(v, e);
    NoteConfirmed(v, e);
  }

  lemma SettledKeepsCounters(v: Vars, call: nat, reply: Reply)
    requires Counters(v) && v.pending.Some?
    requires reply.Receipt? && SameHash(reply.hash, v.pending.value.hash)
    ensures Counters(Settled(v, call, v.pending.value, reply))
  {
    if reply.success {
      ConfirmedKeepsCounters(v, call, reply.hash);
    } else {
      RevertedKeepsCounters(v, call, reply.hash);
    }
  }

  lemma OrderRequestedKeeps(plan: Plan, v: Vars, call: nat)
    requires Counters(v) && GoodLog(plan, v.kinds, v.log) && PhaseInv(plan, v, call, OrderConnecting)
    ensures Counters(Note(v, OrderRequested(call))) && GoodLog(plan, v.kinds, Note(v, OrderRequested(call)).log)
    ensures PhaseInv(plan, Note(v, OrderRequested(call)), call, OrderSigning)
  {
    var e := OrderRequested(call);
    NoteCounts(v, e);
    NoteConfirmed(v, e);
    GoodLogExtend(plan, v.kinds, v.log, e);
    if v.pending.Some? {
      WasSentExtend(v.log, e, v.nextStep, v.pending.value.hash);
    }
  }

  lemma OrderReleasedKeeps(plan: Plan, v: Vars, call: nat)
    requires Counters(v) && GoodLog(plan, v.kinds, v.log) && PhaseInv(plan, v, call, OrderRechecking) && !v.closed
    ensures Counters(Note(v, OrderReleased(call))) && GoodLog(plan, v.kinds, Note(v, OrderReleased(call)).log)
  {
    var e := OrderReleased(call);
    NoteCounts(v, e);
    NoteConfirmed(v, e);
    GoodLogExtend(plan, v.kinds, v.log, e);
    if v.pending.Some? {
      WasSentExtend(v.log, e, v.nextStep, v.pending.value.hash);
    }
  }

  ghost predicate Sound(plan: Plan, v: Vars, call: nat, p: Progress) {
    && VarsInv(plan, p.v) && p.v.kinds == v.kinds && p.v.busy == v.busy
    && (p.Awaits? ==> PhaseInv(plan, p.v, call, p.phase))
  }

  /** The segments of `sendTransaction` that log nothing. */
  lemma QuietSendKeeps(plan: Plan, v: Vars, call: nat, phase: Phase, reply: Reply)
    requires VarsInv(plan, v) && PhaseInv(plan, v, call, phase)
    requires phase.Entering? || phase.Entered? || phase.Signing?
    ensures Sound(plan, v, call, Segment(plan, v, call, phase, reply))
  {
  }

  lemma QuietWaitKeeps(plan: Plan, v: Vars, call: nat, phase: Phase, reply: Reply)
    requires VarsInv(plan, v) && PhaseInv(plan, v, call, phase)
    requires phase.Sending? || phase.Resuming?
    ensures Sound(plan, v, call, Segment(plan, v, call, phase, reply))
  {
  }

  lemma QuietOrderKeeps(plan: Plan, v: Vars, call: nat, phase: Phase, reply: Reply)
    requires VarsInv(plan, v) && PhaseInv(plan, v, call, phase)
    requires phase.OrderEntering? || phase.OrderSigning?
    ensures Sound(plan, v, call, Segment(plan, v, call, phase, reply))
  {
  }

  lemma OrderEnteredKeeps(plan: Plan, v: Vars, call: nat, phase: Phase, reply: Reply)
    requires VarsInv(plan, v) && PhaseInv(plan, v, call, phase) && phase.OrderEntered?
    ensures Sound(plan, v, call, Segment(plan, v, call, phase, reply))
  {
    var w := v.(orderAttempted := true);
    assert Counters(w);
    assert OrderPhase(w, call, 0);
  }

  lemma SettleSegmentKeeps(plan: Plan, v: Vars, call: nat, phase: Phase, reply: Reply)
    requires VarsInv(plan, v) && PhaseInv(plan, v, call, phase) && phase.Confirming?
    ensures Sound(plan, v, call, Segment(plan, v, call, phase, reply))
  {
    if Segment(plan, v, call, phase, reply) != Ends(v) {
      SettledKeepsLog(plan, v, call, phase.current, reply);
      SettledKeepsCounters(v, call, reply);
    }
  }

  lemma DeviceSegmentKeeps(plan: Plan, v: Vars, call: nat, phase: Phase, reply: Reply)
    requires VarsInv(plan, v) && PhaseInv(plan, v, call, phase) && phase.Preparing?
    ensures Sound(plan, v, call, Segment(plan, v, call, phase, reply))
  {
    if Segment(plan, v, call, phase, reply) != Ends(v) {
      RequestedKeeps(plan, v, call, phase.expected, reply.tx);
    }
  }

  lemma SendSegmentKeeps(plan: Plan, v: Vars, call: nat, phase: Phase, reply: Reply)
    requires VarsInv(plan, v) && PhaseInv(plan, v, call, phase) && phase.Rechecking?
    ensures Sound(plan, v, call, Segment(plan, v, call, phase, reply))
  {
    if Segment(plan, v, call, phase, reply) != Ends(v) {
      SentKeepsLog(plan, v, call, phase.prepared, reply.hash);
      SentKeepsCounters(plan, v, call, phase.prepared, reply.hash);
    }
  }

  lemma OrderSegmentKeeps(plan: Plan, v: Vars, call: nat, phase: Phase, reply: Reply)
    requires VarsInv(plan, v) && PhaseInv(plan, v, call, phase) && (phase.OrderConnecting? || phase.OrderRechecking?)
    ensures Sound(plan, v, call, Segment(plan, v, call, phase, reply))
  {
    if Segment(plan, v, call, phase, reply) != Ends(v) {
      if phase.OrderConnecting? {
        OrderRequestedKeeps(plan, v, call);
      } else {
        OrderReleasedKeeps(plan, v, call);
      }
    }
  }

  lemma SegmentKeeps(plan: Plan, v: Vars, call: nat, phase: Phase, reply: Reply)
    requires VarsInv(plan, v) && PhaseInv(plan, v, call, phase)
    ensures Sound(plan, v, call, Segment(plan, v, call, phase, reply))
  {
    if phase.Confirming? {
      SettleSegmentKeeps(plan, v, call, phase, reply);
    } else if phase.Preparing? {
      DeviceSegmentKeeps(plan, v, call, phase, reply);
    } else if phase.Rechecking? {
      SendSegmentKeeps(plan, v, call, phase, reply);
    } else if phase.OrderConnecting? || phase.OrderRechecking? {
      OrderSegmentKeeps(plan, v, call, phase, reply);
    } else if phase.Entering? || phase.Entered? || phase.Signing? {
      QuietSendKeeps(plan, v, call, phase, reply);
    } else if phase.Sending? || phase.Resuming? {
      QuietWaitKeeps(plan, v, call, phase, reply);
    } else if phase.OrderEntered? {
      OrderEnteredKeeps(plan, v, call, phase, reply);
    } else {
      QuietOrderKeeps(plan, v, call, phase, reply);
    }
  }

  lemma AwaitKeeps(plan: Plan, s: State, call: nat, p: Progress)
    requires Exclusive(s) && call in s.calls && p.Awaits? && Sound(plan, s.v, call, p)
    ensures Inv(plan, State(p.v, s.calls[call := p.phase]))
  {
    assert call in s.calls[call := p.phase];
  }

  lemma EndKeeps(plan: Plan, s: State, call: nat, p: Progress)
    requires Exclusive(s) && call in s.calls && p.Ends? && Sound(plan, s.v, call, p)
    ensures Inv(plan, State(p.v.(busy := false), s.calls - {call}))
  {
    assert (s.calls - {call}).Keys == {};
  }

  lemma AdvanceKeeps(plan: Plan, s: State, call: nat, reply: Reply)
    requires Inv(plan, s) && call in s.calls
    ensures Inv(plan, Advance(plan, s, call, reply))
  {
    assert PhaseInv(plan, s.v, call, s.calls[call]);
    SegmentKeeps(plan, s.v, call, s.calls[call], reply);
    var p := Segment(plan, s.v, call, s.calls[call], reply);
    if p.Awaits? {
      AwaitKeeps(plan, s, call, p);
    } else {
      EndKeeps(plan, s, call, p);
    }
  }

  lemma StepKeepsInv(plan: Plan, s: State, a: Action)
    requires Inv(plan, s)
    ensures Inv(plan, Step(plan, s, a))
  {
    match a
    case CallSend(request, quoteHolds) =>
      if Step(plan, s, a) != s {
        AdmitKeeps(plan, s, Entering(plan.steps[s.v.nextStep]), SendCall);
      }
    case CallOrder(hash, quoteHolds) =>
      if Step(plan, s, a) != s {
        AdmitKeeps(plan, s, OrderEntering, OrderCall);
      }
    case CallResume =>
      if Step(plan, s, a) != s {
        AdmitKeeps(plan, s, Resuming, ResumeCall);
      }
    case CallClose => CloseKeeps(plan, s);
    case Wake(call, reply) =>
      if call in s.calls {
        AdvanceKeeps(plan, s, call, reply);
      }
  }

  lemma {:induction false} RunKeepsInv(plan: Plan, actions: seq<Action>)
    ensures Inv(plan, Run(plan, actions))
  {
    if actions != [] {
      RunKeepsInv(plan, actions[..|actions| - 1]);
      StepKeepsInv(plan, Run(plan, actions[..|actions| - 1]), actions[|actions| - 1]);
    }
  }

  // ---- The signer as the object the source builds ----

  class LedgerSwapSigner {
    const plan: Plan
    var busy: bool
    var closed: bool
    var nextStep: nat
    var attempted: int
    var orderAttempted: bool
    var pending: Option<Pending>
    var calls: map<nat, Phase>
    var kinds: seq<Kind>
    var log: seq<Event>

    ghost function Snapshot(): State
      reads this
    {
      State(Vars(busy, closed, nextStep, attempted, orderAttempted, pending, kinds, log), calls)
    }

    constructor (plan: Plan)
      ensures this.plan == plan && Snapshot() == Initial && Inv(plan, Snapshot())
    {
      this.plan := plan;
      busy, closed := false, false;
      nextStep, attempted := 0, -1;
      orderAttempted := false;
      pending := None;
      calls, kinds, log := map[], [], [];
    }

    /** The synchronous start of `enter`, run in the same turn as the checks before it. */
    method Enter(phase: Phase, kind: Kind)
      requires !busy
      modifies this
      ensures Snapshot() == Admit(old(Snapshot()), phase, kind)
    {
      busy := true;
      calls := calls[|kinds| := phase];
      kinds := kinds + [kind];
    }

    method SendTransaction(request: Request, quoteHolds: bool)
      requires Inv(plan, Snapshot())
      modifies this
      ensures Snapshot() == Step(plan, old(Snapshot()), CallSend(request, quoteHolds)) && Inv(plan, Snapshot())
    {
      StepKeepsInv(plan, Snapshot(), CallSend(request, quoteHolds));
      if nextStep >= |plan.steps| || !Asks(request, plan.steps[nextStep]) { return; }
      if pending.Some? || attempted == nextStep { return; }
      if closed || busy || !quoteHolds { return; }
      Enter(Entering(plan.steps[nextStep]), SendCall);
    }

    method SignTypedData(hash: string, quoteHolds: bool)
      requires Inv(plan, Snapshot())
      modifies this
      ensures Snapshot() == Step(plan, old(Snapshot()), CallOrder(hash, quoteHolds)) && Inv(plan, Snapshot())
    {
      StepKeepsInv(plan, Snapshot(), CallOrder(hash, quoteHolds));
      if plan.order != Some(hash) || orderAttempted { return; }
      if closed || busy || !quoteHolds { return; }
      Enter(OrderEntering, OrderCall);
    }

    method ResumeTransaction()
      requires Inv(plan, Snapshot())
      modifies this
      ensures Snapshot() == Step(plan, old(Snapshot()), CallResume) && Inv(plan, Snapshot())
    {
      StepKeepsInv(plan, Snapshot(), CallResume);
      if busy || pending.None? { return; }
      Enter(Resuming, ResumeCall);
    }

    method Close()
      requires Inv(plan, Snapshot())
      modifies this
      ensures Snapshot() == Step(plan, old(Snapshot()), CallClose) && Inv(plan, Snapshot())
    {
      StepKeepsInv(plan, Snapshot(), CallClose);
      closed := true;
      log := log + [Closed];
    }

    /** `confirmPending` once the receipt wait has ended; says whether it returned (rather than threw). */
    method ConfirmPending(call: nat, current: Pending, reply: Reply) returns (returned: bool)
      modifies this`pending, this`nextStep, this`log
      ensures returned == (reply.Receipt? && SameHash(reply.hash, current.hash) && reply.success)
      ensures Ends(Snapshot().v) == Segment(plan, old(Snapshot().v), call, Confirming(current), reply)
    {
      if !reply.Receipt? || !SameHash(reply.hash, current.hash) { return false; }
      pending := None;
      log := log + [ReceiptSeen(call, reply.hash, reply.success)];
      if !reply.success { return false; }
      nextStep := current.step + 1;
      return true;
    }

    ghost predicate Made(before: Vars, call: nat, phase: Phase, reply: Reply, next: Option<Phase>)
      reads this
    {
      var after := Snapshot().v;
      Segment(plan, before, call, phase, reply) == if next.Some? then Awaits(after, next.value) else Ends(after)
    }

    /** One segment of `sendTransaction` or `resumeTransaction`; no next phase means the call returned or threw. */
    method SendSegment(call: nat, phase: Phase, reply: Reply) returns (next: Option<Phase>)
      requires !phase.OfOrder()
      modifies this`attempted, this`pending, this`nextStep, this`log
      ensures Made(old(Snapshot().v), call, phase, reply, next)
    {
      next := None;
      match phase {
        case Entering(expected) =>
          if reply.Passes? && !closed { next := Some(Entered(expected)); }
        case Entered(expected) =>
          attempted := nextStep;
          next := Some(Preparing(expected));
        case Preparing(expected) =>
          if PreparedAsReviewed(plan, reply, expected) {
            log := log + [SignRequested(call, nextStep, reply.tx)];
            next := Some(Signing(reply.tx));
          }
        case Signing(prepared) =>
          if SignedByOwner(reply) && !closed { next := Some(Rechecking(prepared)); }
        case Rechecking(prepared) =>
          if reply.Sealed? && !closed {
            pending := Some(Pending(reply.hash, nextStep));
            log := log + [Broadcast(call, nextStep, prepared, reply.hash)];
            next := Some(Sending);
          }
        case Sending =>
          if reply.RpcHash? && pending.Some? && SameHash(reply.hash, pending.value.hash) {
            next := Some(Confirming(pending.value));
          }
        case Confirming(current) =>
          var _ := ConfirmPending(call, current, reply);
        case Resuming =>
          if reply.Passes? && pending.Some? { next := Some(Confirming(pending.value)); }
      }
    }

    /** One segment of `signTypedData`. */
    method OrderSegment(call: nat, phase: Phase, reply: Reply) returns (next: Option<Phase>)
      requires phase.OfOrder()
      modifies this`orderAttempted, this`log
      ensures Made(old(Snapshot().v), call, phase, reply, next)
    {
      next := None;
      match phase {
        case OrderEntering =>
          if reply.Passes? && !closed { next := Some(OrderEntered); }
        case OrderEntered =>
          orderAttempted := true;
          next := Some(OrderConnecting);
        case OrderConnecting =>
          if reply.Passes? {
            log := log + [OrderRequested(call)];
            next := Some(OrderSigning);
          }
        case OrderSigning =>
          if reply.OrderSignature? && reply.byOwner && !closed { next := Some(OrderRechecking); }
        case OrderRechecking =>
          if reply.Passes? && !closed { log := log + [OrderReleased(call)]; }
      }
    }

    method RunSegment(call: nat, reply: Reply)
      requires call in calls
      modifies this
      ensures Snapshot() == Advance(plan, old(Snapshot()), call, reply)
    {
      var phase := calls[call];
      var next: Option<Phase>;
      if phase.OfOrder() {
        next := OrderSegment(call, phase, reply);
      } else {
        next := SendSegment(call, phase, reply);
      }
      if next.Some? {
        calls := calls[call := next.value];
      } else {
        busy := false;
        calls := calls - {call};
      }
    }

    /** Runs call `call` from its current await to the next one, or to its end. */
    method Continue(call: nat, reply: Reply)
      requires Inv(plan, Snapshot()) && call in calls
      modifies this
      ensures Snapshot() == Step(plan, old(Snapshot()), Wake(call, reply)) && Inv(plan, Snapshot())
    {
      StepKeepsInv(plan, Snapshot(), Wake(call, reply));
      RunSegment(call, reply);
    }
  }
}
