/** What the Ledger swap signer guarantees over every interleaving, and exactly where those guarantees end. */
module SwapGuarantees {
  import opened Wrappers
  import opened SwapSigner

  // ---- What holds in every run ----

  lemma {:induction false} CountMonotone(log: seq<Event>, i: nat, j: nat, m: Mark)
    requires i <= j <= |log|
    ensures Count(log[..i], m) <= Count(log[..j], m)
  {
    if i < j {
      CountMonotone(log, i, j - 1, m);
      assert log[..j][..j - 1] == log[..j - 1];
    }
  }

  lemma CountsStrictly(log: seq<Event>, i: nat, j: nat)
    requires i < j <= |log|
    ensures Count(log[..i], MarkOf(log[i])) < Count(log[..j], MarkOf(log[i]))
  {
    var m := MarkOf(log[i]);
    assert log[..i + 1] == log[..i] + [log[i]];
    CountExtend(log[..i], log[i], m);
    CountMonotone(log, i + 1, j, m);
  }

  /** Each reviewed step is asked of the device at most once and broadcast at most once, and both go in order. */
  lemma StepsGoOutOnceInOrder(plan: Plan, actions: seq<Action>, i: nat, j: nat)
    requires i < j < |Run(plan, actions).v.log|
    ensures var log := Run(plan, actions).v.log;
      && (log[i].Broadcast? && log[j].Broadcast? ==> log[i].step < log[j].step)
      && (log[i].SignRequested? && log[j].SignRequested? ==> log[i].step < log[j].step)
  {
    RunKeepsInv(plan, actions);
    var s := Run(plan, actions);
    assert AllowedAt(plan, s.v.kinds, s.v.log, i) && AllowedAt(plan, s.v.kinds, s.v.log, j);
    CountsStrictly(s.v.log, i, j);
  }

  /**
   * A broadcast carries the reviewed transaction, and its predecessor was confirmed under its own signed hash first.
   */
  lemma BroadcastFollowsConfirmation(plan: Plan, actions: seq<Action>, k: nat)
    requires k < |Run(plan, actions).v.log| && Run(plan, actions).v.log[k].Broadcast?
    ensures var log := Run(plan, actions).v.log;
      && Reviewed(plan, log[k].step, log[k].tx)
      && (log[k].step > 0 ==> Confirmed(log[..k], log[k].step - 1))
  {
    RunKeepsInv(plan, actions);
    var s := Run(plan, actions);
    assert AllowedAt(plan, s.v.kinds, s.v.log, k);
  }

  /** The critical section: `busy` means exactly one call in flight, and a pending transaction pins the step counter. */
  lemma CriticalSectionIsExclusive(plan: Plan, actions: seq<Action>)
    ensures var s := Run(plan, actions);
      && (s.v.busy ==> exists c: nat :: c in s.calls && s.calls.Keys == {c})
      && (!s.v.busy ==> s.calls == map[])
      && (s.v.pending.Some? ==> s.v.pending.value.step == s.v.nextStep == s.v.attempted)
  {
    RunKeepsInv(plan, actions);
    var s := Run(plan, actions);
    if s.v.busy {
      var c: nat :| c in s.calls.Keys;
      assert c in s.calls && s.calls.Keys == {c};
    } else {
      assert s.calls.Keys == {};
      assert s.calls == map[];
    }
  }

  /** `resumeTransaction` only reads receipts: it never asks the device and never sends. */
  lemma ResumeOnlyReadsReceipts(plan: Plan, actions: seq<Action>, k: nat)
    requires k < |Run(plan, actions).v.log|
    ensures var s := Run(plan, actions);
      var e := s.v.log[k];
      e.Closed? || (e.call < |s.v.kinds| && (s.v.kinds[e.call].ResumeCall? ==> e.ReceiptSeen?))
  {
    RunKeepsInv(plan, actions);
    var s := Run(plan, actions);
    assert AllowedAt(plan, s.v.kinds, s.v.log, k);
  }

  /** After `close()` no broadcast begins and no order signature is released. */
  lemma NothingLeavesAfterClose(plan: Plan, actions: seq<Action>, i: nat, j: nat)
    requires i < j < |Run(plan, actions).v.log| && Run(plan, actions).v.log[i].Closed?
    ensures !Run(plan, actions).v.log[j].Broadcast? && !Run(plan, actions).v.log[j].OrderReleased?
  {
    RunKeepsInv(plan, actions);
    var s := Run(plan, actions);
    assert AllowedAt(plan, s.v.kinds, s.v.log, j);
    assert s.v.log[..j][i] == Closed;
  }

  /** The reviewed order is asked of the device at most once and released at most once. */
  lemma OrderSignedOnce(plan: Plan, actions: seq<Action>, i: nat, j: nat)
    requires i < j < |Run(plan, actions).v.log|
    ensures var log := Run(plan, actions).v.log;
      && !(log[i].OrderRequested? && log[j].OrderRequested?)
      && !(log[i].OrderReleased? && log[j].OrderReleased?)
  {
    RunKeepsInv(plan, actions);
    var s := Run(plan, actions);
    assert AllowedAt(plan, s.v.kinds, s.v.log, j);
    CountsStrictly(s.v.log, i, j);
  }

  // ---- What `close()` does not stop ----

  /** A call that has left `enter` and has not yet asked the device to sign. */
  ghost predicate DeviceAhead(s: State) {
    exists c :: c in s.calls && PromptAhead(s.calls[c])
  }

  predicate PromptAhead(phase: Phase) {
    phase.Entered? || phase.Preparing? || phase.OrderEntered? || phase.OrderConnecting?
  }

  /** How often the device was asked to sign, a transaction or the order. */
  function Asked(log: seq<Event>): nat {
    Count(log, SignMark) + Count(log, OrderRequestMark)
  }

  lemma AskedExtend(log: seq<Event>, e: Event)
    ensures Asked(log + [e]) == Asked(log) + if e.SignRequested? || e.OrderRequested? then 1 else 0
  {
    CountExtend(log, e, SignMark);
    CountExtend(log, e, OrderRequestMark);
  }

  lemma ClosedSegmentAsksNothing(plan: Plan, v: Vars, call: nat, phase: Phase, reply: Reply)
    requires v.closed && !PromptAhead(phase)
    ensures var p := Segment(plan, v, call, phase, reply);
      p.v.closed && (p.Awaits? ==> !PromptAhead(p.phase)) && Asked(p.v.log) == Asked(v.log)
  {
    if phase.Confirming? && reply.Receipt? {
      AskedExtend(v.log, ReceiptSeen(call, reply.hash, reply.success));
    }
  }

  lemma ClosedStepAsksNothing(plan: Plan, s: State, a: Action)
    requires s.v.closed && !DeviceAhead(s)
    ensures Step(plan, s, a).v.closed && !DeviceAhead(Step(plan, s, a))
    ensures Asked(Step(plan, s, a).v.log) == Asked(s.v.log)
  {
    match a
    case CallSend(_, _) =>
    case CallOrder(_, _) =>
    case CallResume =>
    case CallClose => AskedExtend(s.v.log, Closed);
    case Wake(call, reply) =>
      if call in s.calls {
        ClosedSegmentAsksNothing(plan, s.v, call, s.calls[call], reply);
      }
  }

  lemma {:induction false} ClosedRunAsksNothing(plan: Plan, s: State, actions: seq<Action>)
    requires s.v.closed && !DeviceAhead(s)
    ensures RunFrom(plan, s, actions).v.closed && !DeviceAhead(RunFrom(plan, s, actions))
    ensures Asked(RunFrom(plan, s, actions).v.log) == Asked(s.v.log)
  {
    if actions != [] {
      ClosedRunAsksNothing(plan, s, actions[..|actions| - 1]);
      ClosedStepAsksNothing(plan, RunFrom(plan, s, actions[..|actions| - 1]), actions[|actions| - 1]);
    }
  }

  /** After some continuation the device has been asked more than `n` times. */
  ghost predicate CanPrompt(plan: Plan, s: State, n: nat) {
    exists actions :: Asked(RunFrom(plan, s, actions).v.log) > n
  }

  lemma {:induction false} RunCons(plan: Plan, s: State, a: Action, actions: seq<Action>)
    ensures RunFrom(plan, s, [a] + actions) == RunFrom(plan, Step(plan, s, a), actions)
  {
    if actions == [] {
      assert [a] + actions == [a] && [a][..0] == [];
      assert RunFrom(plan, s, []) == s;
    } else {
      var init := actions[..|actions| - 1];
      RunCons(plan, s, a, init);
      assert ([a] + actions)[..|actions|] == [a] + init;
    }
  }

  lemma PromptLater(plan: Plan, s: State, a: Action, n: nat)
    requires CanPrompt(plan, Step(plan, s, a), n)
    ensures CanPrompt(plan, s, n)
  {
    var actions :| Asked(RunFrom(plan, Step(plan, s, a), actions).v.log) > n;
    RunCons(plan, s, a, actions);
  }

  lemma PromptNow(plan: Plan, s: State, n: nat)
    requires Asked(s.v.log) > n
    ensures CanPrompt(plan, s, n)
  {
    assert RunFrom(plan, s, []) == s;
  }

  lemma PreparingPrompts(plan: Plan, s: State, c: nat, n: nat)
    requires c in s.calls && s.calls[c].Preparing? && Asked(s.v.log) >= n
    ensures CanPrompt(plan, s, n)
  {
    var expected := s.calls[c].expected;
    var a := Wake(c, Prepared(plan.chainId, expected, true));
    AskedExtend(s.v.log, SignRequested(c, s.v.nextStep, expected));
    PromptNow(plan, Step(plan, s, a), n);
    PromptLater(plan, s, a, n);
  }

  lemma ConnectingPrompts(plan: Plan, s: State, c: nat, n: nat)
    requires c in s.calls && s.calls[c].OrderConnecting? && Asked(s.v.log) >= n
    ensures CanPrompt(plan, s, n)
  {
    AskedExtend(s.v.log, OrderRequested(c));
    PromptNow(plan, Step(plan, s, Wake(c, Passes)), n);
    PromptLater(plan, s, Wake(c, Passes), n);
  }

  /** Whatever `closed` says, a call this far can go on to ask. */
  lemma AheadPrompts(plan: Plan, s: State, c: nat)
    requires c in s.calls && PromptAhead(s.calls[c])
    ensures CanPrompt(plan, s, Asked(s.v.log))
  {
    var n, next := Asked(s.v.log), Step(plan, s, Wake(c, Passes));
    if s.calls[c].Preparing? {
      PreparingPrompts(plan, s, c, n);
    } else if s.calls[c].OrderConnecting? {
      ConnectingPrompts(plan, s, c, n);
    } else if s.calls[c].Entered? {
      PreparingPrompts(plan, next, c, n);
      PromptLater(plan, s, Wake(c, Passes), n);
    } else {
      ConnectingPrompts(plan, next, c, n);
      PromptLater(plan, s, Wake(c, Passes), n);
    }
  }

  /**
   * `close()` does not stop a device prompt already on its way: a closed signer can still ask the Ledger to sign, a
   * transaction or the order, exactly when some call had already left `enter` and not yet asked.
   */
  lemma ClosedSignerMayStillPrompt(plan: Plan, s: State)
    requires s.v.closed
    ensures DeviceAhead(s) <==> CanPrompt(plan, s, Asked(s.v.log))
  {
    if DeviceAhead(s) {
      var c :| c in s.calls && PromptAhead(s.calls[c]);
      AheadPrompts(plan, s, c);
    }
    if actions :| Asked(RunFrom(plan, s, actions).v.log) > Asked(s.v.log) {
      if !DeviceAhead(s) {
        ClosedRunAsksNothing(plan, s, actions);
      }
    }
  }

  lemma RunThree(plan: Plan, a: Action, b: Action, c: Action)
    ensures Run(plan, [a, b, c]) == Step(plan, Step(plan, Step(plan, Initial, a), b), c)
  {
    var s := Step(plan, Initial, a);
    assert RunFrom(plan, Step(plan, Step(plan, s, b), c), []) == Step(plan, Step(plan, s, b), c);
    RunCons(plan, Step(plan, s, b), c, []);
    RunCons(plan, s, b, [c]);
    RunCons(plan, Initial, a, [b, c]);
    assert [a] + [b, c] == [a, b, c] && [b] + [c] == [b, c] && [c] + [] == [c];
  }

  /** Such states are reached: for any first transaction, and for any order, `close()` may fall right after `enter`. */
  lemma ClosedPromptIsReachable(plan: Plan)
    ensures plan.steps != [] ==>
      var t := plan.steps[0];
      var s := Run(plan, [CallSend(Request(t.to, t.data, Some(t.value)), true), Wake(0, Passes), CallClose]);
      s.v.closed && DeviceAhead(s)
    ensures plan.order.Some? ==>
      var s := Run(plan, [CallOrder(plan.order.value, true), Wake(0, Passes), CallClose]);
      s.v.closed && DeviceAhead(s)
  {
    if plan.steps != [] {
      var t := plan.steps[0];
      var call := CallSend(Request(t.to, t.data, Some(t.value)), true);
      RunThree(plan, call, Wake(0, Passes), CallClose);
      assert PromptAhead(Run(plan, [call, Wake(0, Passes), CallClose]).calls[0]);
    }
    if plan.order.Some? {
      var call := CallOrder(plan.order.value, true);
      RunThree(plan, call, Wake(0, Passes), CallClose);
      assert PromptAhead(Run(plan, [call, Wake(0, Passes), CallClose]).calls[0]);
    }
  }

  // ---- When the swap can go on ----

  /** After some continuation more than `n` transactions have been broadcast. */
  ghost predicate CanSend(plan: Plan, s: State, n: nat) {
    exists actions :: Count(RunFrom(plan, s, actions).v.log, BroadcastMark) > n
  }

  predicate SendUnderWay(phase: Phase) {
    phase.Preparing? || phase.Signing? || phase.Rechecking?
  }

  /**
   * A further transaction can go out: the signer is open, and either the pending one can be confirmed and has a
   * successor, or the next step exists and was not attempted yet, or its only attempt is still before its broadcast.
   */
  ghost predicate Alive(plan: Plan, s: State) {
    AliveVars(plan, s.v, exists c :: c in s.calls && SendUnderWay(s.calls[c]))
  }

  predicate AliveVars(plan: Plan, v: Vars, underWay: bool) {
    && !v.closed
    && (v.pending.Some? ==> v.nextStep + 1 < |plan.steps|)
    && (v.pending.None? ==> v.nextStep < |plan.steps| && (v.attempted != v.nextStep || underWay))
  }

  lemma SendLater(plan: Plan, s: State, a: Action, n: nat)
    requires CanSend(plan, Step(plan, s, a), n)
    ensures CanSend(plan, s, n)
  {
    var actions :| Count(RunFrom(plan, Step(plan, s, a), actions).v.log, BroadcastMark) > n;
    RunCons(plan, s, a, actions);
  }

  lemma SendNow(plan: Plan, s: State, n: nat)
    requires Count(s.v.log, BroadcastMark) > n
    ensures CanSend(plan, s, n)
  {
    assert RunFrom(plan, s, []) == s;
  }

  /** A call past its checks reaches its broadcast when every reply is the good one. */
  lemma UnderWaySends(plan: Plan, s: State, c: nat, n: nat)
    requires !s.v.closed && c in s.calls && SendUnderWay(s.calls[c]) && Count(s.v.log, BroadcastMark) >= n
    ensures CanSend(plan, s, n)
    decreases if s.calls[c].Preparing? then 2 else if s.calls[c].Signing? then 1 else 0
  {
    match s.calls[c]
    case Preparing(expected) =>
      var a := Wake(c, Prepared(plan.chainId, expected, true));
      CountExtend(s.v.log, SignRequested(c, s.v.nextStep, expected), BroadcastMark);
      UnderWaySends(plan, Step(plan, s, a), c, n);
      SendLater(plan, s, a, n);
    case Signing(_) =>
      var a := Wake(c, Signature(0, Some(0)));
      UnderWaySends(plan, Step(plan, s, a), c, n);
      SendLater(plan, s, a, n);
    case Rechecking(prepared) =>
      CountExtend(s.v.log, Broadcast(c, s.v.nextStep, prepared, ""), BroadcastMark);
      SendNow(plan, Step(plan, s, Wake(c, Sealed(""))), n);
      SendLater(plan, s, Wake(c, Sealed("")), n);
  }

  lemma EnteringSends(plan: Plan, s: State, c: nat, n: nat)
    requires !s.v.closed && c in s.calls && Count(s.v.log, BroadcastMark) >= n
    requires s.calls[c].Entering? || s.calls[c].Entered?
    ensures CanSend(plan, s, n)
    decreases s.calls[c].Entering?
  {
    var next := Step(plan, s, Wake(c, Passes));
    if s.calls[c].Entering? {
      EnteringSends(plan, next, c, n);
    } else {
      UnderWaySends(plan, next, c, n);
    }
    SendLater(plan, s, Wake(c, Passes), n);
  }

  lemma IdleSends(plan: Plan, s: State, n: nat)
    requires !s.v.closed && !s.v.busy && s.v.pending.None?
    requires s.v.nextStep < |plan.steps| && s.v.attempted != s.v.nextStep
    requires Count(s.v.log, BroadcastMark) >= n
    ensures CanSend(plan, s, n)
  {
    var t := plan.steps[s.v.nextStep];
    var a := CallSend(Request(t.to, t.data, Some(t.value)), true);
    EnteringSends(plan, Step(plan, s, a), |s.v.kinds|, n);
    SendLater(plan, s, a, n);
  }

  /** The receipt of a pending transaction arrives, and the next step follows. */
  lemma ConfirmingSends(plan: Plan, s: State, c: nat, n: nat)
    requires !s.v.closed && c in s.calls && Count(s.v.log, BroadcastMark) >= n
    requires s.v.pending.Some? && s.v.pending.value.step == s.v.nextStep == s.v.attempted
    requires s.v.nextStep + 1 < |plan.steps| && s.calls[c] == Confirming(s.v.pending.value)
    ensures CanSend(plan, s, n)
  {
    var hash := s.v.pending.value.hash;
    var a := Wake(c, Receipt(hash, true));
    CountExtend(s.v.log, ReceiptSeen(c, hash, true), BroadcastMark);
    IdleSends(plan, Step(plan, s, a), n);
    SendLater(plan, s, a, n);
  }

  lemma PendingSends(plan: Plan, s: State, n: nat)
    requires !s.v.closed && !s.v.busy && Count(s.v.log, BroadcastMark) >= n && s.v.nextStep + 1 < |plan.steps|
    requires s.v.pending.Some? && s.v.pending.value.step == s.v.nextStep == s.v.attempted
    ensures CanSend(plan, s, n)
  {
    var c := |s.v.kinds|;
    var s1 := Step(plan, s, CallResume);
    ConfirmingSends(plan, Step(plan, s1, Wake(c, Passes)), c, n);
    SendLater(plan, s1, Wake(c, Passes), n);
    SendLater(plan, s, CallResume, n);
  }

  /** With the lock free, an open swap that is not blocked goes on. */
  lemma FreeSends(plan: Plan, s: State, n: nat)
    requires Counters(s.v) && Alive(plan, s) && !s.v.busy && Count(s.v.log, BroadcastMark) >= n
    requires s.v.pending.None? ==> s.v.attempted != s.v.nextStep
    ensures CanSend(plan, s, n)
  {
    if s.v.pending.Some? {
      PendingSends(plan, s, n);
    } else {
      IdleSends(plan, s, n);
    }
  }

  /** A throw ends any of these calls and changes nothing but the lock. */
  lemma ThrowEnds(plan: Plan, s: State, c: nat)
    requires c in s.calls
    requires (s.calls[c].OfOrder() && !s.calls[c].OrderEntered?) || s.calls[c].Sending? || s.calls[c].Resuming?
          || s.calls[c].Confirming?
    ensures Step(plan, s, Wake(c, Throws)) == State(s.v.(busy := false), s.calls - {c})
  {
  }

  lemma FreedSends(plan: Plan, s: State, c: nat, n: nat)
    requires Counters(s.v) && Alive(plan, s) && c in s.calls && Count(s.v.log, BroadcastMark) >= n
    requires s.v.pending.None? ==> s.v.attempted != s.v.nextStep
    ensures CanSend(plan, State(s.v.(busy := false), s.calls - {c}), n)
  {
    FreeSends(plan, State(s.v.(busy := false), s.calls - {c}), n);
  }

  /** Any other call can be made to fail, and frees the lock. */
  lemma FailingSends(plan: Plan, s: State, c: nat, n: nat)
    requires Counters(s.v) && Alive(plan, s) && c in s.calls && Count(s.v.log, BroadcastMark) >= n
    requires s.v.pending.None? ==> s.v.attempted != s.v.nextStep
    requires (s.calls[c].OfOrder() && !s.calls[c].OrderEntered?) || s.calls[c].Sending? || s.calls[c].Resuming?
          || s.calls[c].Confirming?
    ensures CanSend(plan, s, n)
  {
    ThrowEnds(plan, s, c);
    FreedSends(plan, s, c, n);
    SendLater(plan, s, Wake(c, Throws), n);
  }

  lemma OrderEnteredSends(plan: Plan, s: State, c: nat, n: nat)
    requires Counters(s.v) && Alive(plan, s) && c in s.calls && Count(s.v.log, BroadcastMark) >= n
    requires (s.v.pending.None? ==> s.v.attempted != s.v.nextStep) && s.calls[c].OrderEntered?
    ensures CanSend(plan, s, n)
  {
    FailingSends(plan, Step(plan, s, Wake(c, Throws)), c, n);
    SendLater(plan, s, Wake(c, Throws), n);
  }

  lemma AliveSends(plan: Plan, s: State)
    requires Inv(plan, s) && Alive(plan, s)
    ensures CanSend(plan, s, Count(s.v.log, BroadcastMark))
  {
    var n := Count(s.v.log, BroadcastMark);
    if c :| c in s.calls {
      assert PhaseInv(plan, s.v, c, s.calls[c]);
      if SendUnderWay(s.calls[c]) {
        UnderWaySends(plan, s, c, n);
      } else if s.calls[c].Entering? || s.calls[c].Entered? {
        EnteringSends(plan, s, c, n);
      } else if s.calls[c].OrderEntered? {
        OrderEnteredSends(plan, s, c, n);
      } else {
        FailingSends(plan, s, c, n);
      }
    } else {
      FreeSends(plan, s, n);
    }
  }

  /** A segment of a swap that cannot go on broadcasts nothing and does not revive it. */
  ghost predicate Dead(plan: Plan, v: Vars, p: Progress) {
    && !AliveVars(plan, p.v, p.Awaits? && SendUnderWay(p.phase))
    && Count(p.v.log, BroadcastMark) == Count(v.log, BroadcastMark)
  }

  lemma DeadSettle(plan: Plan, v: Vars, call: nat, phase: Phase, reply: Reply)
    requires Counters(v) && PhaseInv(plan, v, call, phase) && phase.Confirming? && !AliveVars(plan, v, false)
    ensures Dead(plan, v, Segment(plan, v, call, phase, reply))
  {
    if reply.Receipt? {
      CountExtend(v.log, ReceiptSeen(call, reply.hash, reply.success), BroadcastMark);
    }
  }

  lemma DeadOrder(plan: Plan, v: Vars, call: nat, phase: Phase, reply: Reply)
    requires phase.OfOrder() && !AliveVars(plan, v, false)
    ensures Dead(plan, v, Segment(plan, v, call, phase, reply))
  {
    if phase.OrderConnecting? {
      CountExtend(v.log, OrderRequested(call), BroadcastMark);
    } else if phase.OrderRechecking? {
      CountExtend(v.log, OrderReleased(call), BroadcastMark);
    }
  }

  lemma DeadSend(plan: Plan, v: Vars, call: nat, phase: Phase, reply: Reply)
    requires Counters(v) && PhaseInv(plan, v, call, phase) && !AliveVars(plan, v, SendUnderWay(phase))
    requires !phase.OfOrder() && !phase.Confirming?
    ensures Dead(plan, v, Segment(plan, v, call, phase, reply))
  {
    if phase.Preparing? && reply.Prepared? {
      CountExtend(v.log, SignRequested(call, v.nextStep, reply.tx), BroadcastMark);
    }
  }

  lemma DeadSegment(plan: Plan, v: Vars, call: nat, phase: Phase, reply: Reply)
    requires Counters(v) && PhaseInv(plan, v, call, phase) && !AliveVars(plan, v, SendUnderWay(phase))
    ensures Dead(plan, v, Segment(plan, v, call, phase, reply))
  {
    if phase.Confirming? {
      DeadSettle(plan, v, call, phase, reply);
    } else if phase.OfOrder() {
      DeadOrder(plan, v, call, phase, reply);
    } else {
      DeadSend(plan, v, call, phase, reply);
    }
  }

  lemma OnlyCall(s: State, c: nat)
    requires Exclusive(s) && c in s.calls
    ensures (exists d :: d in s.calls && SendUnderWay(s.calls[d])) == SendUnderWay(s.calls[c])
  {
  }

  lemma DeadAdvance(plan: Plan, s: State, c: nat, reply: Reply)
    requires Inv(plan, s) && !Alive(plan, s) && c in s.calls
    ensures !Alive(plan, Advance(plan, s, c, reply))
    ensures Count(Advance(plan, s, c, reply).v.log, BroadcastMark) == Count(s.v.log, BroadcastMark)
  {
    assert PhaseInv(plan, s.v, c, s.calls[c]);
    OnlyCall(s, c);
    DeadSegment(plan, s.v, c, s.calls[c], reply);
    AdvanceKeeps(plan, s, c, reply);
    var next := Advance(plan, s, c, reply);
    if c in next.calls {
      OnlyCall(next, c);
    } else {
      assert next.calls.Keys == {};
    }
  }

  lemma DeadStep(plan: Plan, s: State, a: Action)
    requires Inv(plan, s) && !Alive(plan, s)
    ensures !Alive(plan, Step(plan, s, a))
    ensures Count(Step(plan, s, a).v.log, BroadcastMark) == Count(s.v.log, BroadcastMark)
  {
    match a
    case CallClose => CountExtend(s.v.log, Closed, BroadcastMark);
    case Wake(call, reply) =>
      if call in s.calls {
        DeadAdvance(plan, s, call, reply);
      }
    case _ =>
  }

  lemma {:induction false} DeadRun(plan: Plan, s: State, actions: seq<Action>)
    requires Inv(plan, s) && !Alive(plan, s)
    ensures Inv(plan, RunFrom(plan, s, actions)) && !Alive(plan, RunFrom(plan, s, actions))
    ensures Count(RunFrom(plan, s, actions).v.log, BroadcastMark) == Count(s.v.log, BroadcastMark)
  {
    if actions != [] {
      DeadRun(plan, s, actions[..|actions| - 1]);
      StepKeepsInv(plan, RunFrom(plan, s, actions[..|actions| - 1]), actions[|actions| - 1]);
      DeadStep(plan, RunFrom(plan, s, actions[..|actions| - 1]), actions[|actions| - 1]);
    }
  }

  /**
   * From any reachable state another transaction can go out if and only if the swap is alive. So one throw between
   * `attempted = nextStep` and the broadcast, or one reverted receipt, ends the swap for good.
   */
  lemma SwapGoesOnExactlyWhileAlive(plan: Plan, s: State)
    requires Inv(plan, s)
    ensures CanSend(plan, s, Count(s.v.log, BroadcastMark)) <==> Alive(plan, s)
  {
    if Alive(plan, s) {
      AliveSends(plan, s);
    } else if actions :| Count(RunFrom(plan, s, actions).v.log, BroadcastMark) > Count(s.v.log, BroadcastMark) {
      DeadRun(plan, s, actions);
    }
  }

  /** One throw while connecting, and an open swap with steps left is over. */
  lemma BlockedSwapIsReachable(plan: Plan)
    requires plan.steps != []
    ensures var t := plan.steps[0];
      var call := CallSend(Request(t.to, t.data, Some(t.value)), true);
      var s := Run(plan, [call, Wake(0, Passes), Wake(0, Passes), Wake(0, Throws)]);
      !s.v.closed && !s.v.busy && s.v.pending.None? && s.v.nextStep == 0 && !Alive(plan, s)
  {
    var t := plan.steps[0];
    var call := CallSend(Request(t.to, t.data, Some(t.value)), true);
    var first := [call, Wake(0, Passes), Wake(0, Passes)];
    var all := [call, Wake(0, Passes), Wake(0, Passes), Wake(0, Throws)];
    RunThree(plan, call, Wake(0, Passes), Wake(0, Passes));
    assert all[..3] == first;
    assert Run(plan, all) == Step(plan, Run(plan, first), Wake(0, Throws));
  }

  // ---- The recovery id ----

  lemma LowByte(k: int, x: int)
    requires 0 <= x < 256
    ensures (256 * k + x) % 256 == x
  {
  }

  /** The byte a Ledger keeps of a legacy EIP-155 recovery id. */
  function LegacyByte(chainId: int, parity: nat): nat {
    (35 + 2 * chainId + parity) % 256
  }

  /**
   * The parity comes back right unless that byte is 0 or 1, which happens exactly on chain ids 110 and 111 modulo
   * 128.
   */
  lemma TruncatedRecoveryId(chainId: int, parity: nat)
    requires parity <= 1
    ensures var v := LegacyByte(chainId, parity);
      && (RecoveredParity(v) == parity <==> v > 1)
      && (v <= 1 <==> chainId % 128 == 110 + (1 - parity))
  {
    var k, c := chainId / 128, chainId % 128;
    var x := 35 + 2 * c + parity;
    assert 35 + 2 * chainId + parity == 256 * k + x;
    if x < 256 {
      LowByte(k, x);
    } else {
      LowByte(k + 1, x - 256);
    }
  }

  /**
   * So an open signer carries the owner's own legacy signature on to its broadcast exactly off those chain ids; on them
   * the owner check refuses it, the call ends, and nothing has gone out.
   */
  lemma LegacySignatureIsAcceptedExactlyOff(plan: Plan, v: Vars, call: nat, prepared: Tx, parity: nat)
    requires parity <= 1 && !v.closed
    ensures Segment(plan, v, call, Signing(prepared), Signature(LegacyByte(plan.chainId, parity), Some(parity)))
         == if plan.chainId % 128 == 110 + (1 - parity) then Ends(v) else Awaits(v, Rechecking(prepared))
  {
    TruncatedRecoveryId(plan.chainId, parity);
  }

  /** Arbitrum Sepolia is such a chain: half of the owner's legacy signatures are refused there. */
  lemma ArbitrumSepoliaRefusesOddParity(plan: Plan, v: Vars, call: nat, prepared: Tx)
    requires plan.chainId == 421614 && !v.closed
    ensures Segment(plan, v, call, Signing(prepared), Signature(LegacyByte(plan.chainId, 1), Some(1))) == Ends(v)
  {
    LegacySignatureIsAcceptedExactlyOff(plan, v, call, prepared, 1);
  }
}
