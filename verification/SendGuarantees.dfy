/** What the send pipeline guarantees over every run, and exactly where those guarantees end. */
module SendGuarantees {
  import opened SendServer

  // ---- What holds in every run ----

  lemma LaterRecordIsAnotherJob(log: seq<Event>, i: nat, j: nat)
    requires GoodLog(log) && i < j < |log| && log[i].Recorded? && log[j].Recorded?
    ensures log[i].id != log[j].id
  {
    assert AllowedAt(log, j);
    assert log[..j][i] == log[i];
  }

  lemma RecordedOncePerJob(log: seq<Event>, i: nat, j: nat)
    requires GoodLog(log) && i < |log| && j < |log|
    requires log[i].Recorded? && log[j].Recorded? && log[i].id == log[j].id
    ensures i == j
  {
    if i < j {
      LaterRecordIsAnotherJob(log, i, j);
    } else if j < i {
      LaterRecordIsAnotherJob(log, j, i);
    }
  }

  /**
   * The promise of the pipeline: two attestations for one recipient and value are never open together. The second is
   * recorded only after a mint of the first returned from a success receipt, across restarts too.
   */
  lemma NeverSentTwice(actions: seq<Action>, i: nat, j: nat)
    requires i < j < |Run(actions).ledger.log|
    requires Run(actions).ledger.log[i].Recorded? && Run(actions).ledger.log[j].Recorded?
    requires var p, q := Run(actions).ledger.log[i].p, Run(actions).ledger.log[j].p; SameKey(p.recipient, p.value, q)
    ensures var log := Run(actions).ledger.log;
      exists k :: i < k < j && log[k] == Cleared(log[i].id, log[i].p)
  {
    RunKeepsInv(actions);
    var log := Run(actions).ledger.log;
    assert AllowedAt(log, j);
    assert log[..j][i] == log[i];
    var c := Cleared(log[i].id, log[i].p);
    assert c in log[..j];
    var k :| 0 <= k < j && log[k] == c;
    assert AllowedAt(log, k);
    var r :| 0 <= r < k && log[r] == Recorded(log[i].id, log[i].p);
    RecordedOncePerJob(log, i, r);
  }

  /** No two unminted attestations share a recipient and value, and the disk says the same as memory. */
  lemma UnmintedKeysAreDistinct(actions: seq<Action>)
    ensures UniqueKeys(Run(actions).ledger.pending)
    ensures Run(actions).ledger.pending == Run(actions).ledger.disk
  {
    RunKeepsInv(actions);
  }

  /**
   * A recorded attestation is pending, with those very bytes, in memory and on disk, exactly until its mint returns.
   */
  lemma PendingUntilMintReturns(actions: seq<Action>, id: Id, p: PendingMint)
    requires Recorded(id, p) in Run(actions).ledger.log
    ensures var l := Run(actions).ledger;
      && (Cleared(id, p) in l.log <==> !Held(l, id, p))
      && (Held(l, id, p) <==> id in l.disk && l.disk[id] == p)
  {
    RunKeepsInv(actions);
  }

  /** Every submission of a job's mint carries the bytes recorded for it, and none follows its clearing. */
  lemma SubmissionsCarryTheRecordedNote(actions: seq<Action>, i: nat, j: nat)
    requires i < j < |Run(actions).ledger.log| && Run(actions).ledger.log[j].Submitted?
    ensures var log := Run(actions).ledger.log;
      && Recorded(log[j].id, log[j].p) in log[..j]
      && (log[i].Submitted? && log[i].id == log[j].id ==> log[i].p == log[j].p)
      && !(log[i].Cleared? && log[i].id == log[j].id)
  {
    RunKeepsInv(actions);
    var log := Run(actions).ledger.log;
    assert AllowedAt(log, j) && AllowedAt(log, i);
    var r :| 0 <= r < j && log[r] == Recorded(log[j].id, log[j].p);
    if (log[i].Submitted? || log[i].Cleared?) && log[i].id == log[j].id {
      var q :| 0 <= q < i && log[q] == Recorded(log[i].id, log[i].p);
      RecordedOncePerJob(log, q, r);
      assert log[..j][i] == log[i];
    }
  }

  /**
   * The minter pays each attestation at most once, and a cleared attestation was paid by a transaction of its own
   * job.
   */
  lemma ClearedMeansPaid(actions: seq<Action>, k: nat)
    requires k < |Run(actions).ledger.log| && Run(actions).ledger.log[k].Cleared?
    ensures var log := Run(actions).ledger.log; HasPayer(log[..k], log[k].id, log[k].p)
  {
    RunKeepsInv(actions);
    assert AllowedAt(Run(actions).ledger.log, k);
  }

  /** At most one job runs, it is on the board, and once the lock is free every job is final with no step left open. */
  lemma JobLifecycle(actions: seq<Action>)
    ensures var s := Run(actions);
      && (s.board.running.Some? ==>
            s.board.running.value in s.board.jobs && exists a: nat :: a in s.tasks && s.tasks.Keys == {a})
      && (s.board.running.None? ==>
            s.tasks == map[] && forall id :: id in s.board.jobs ==> Idle(s.board.jobs[id], id in s.ledger.pending))
  {
    RunKeepsInv(actions);
    var s := Run(actions);
    if s.board.running.Some? {
      var a: nat :| a in s.tasks.Keys;
      assert a in s.tasks && s.tasks.Keys == {a};
    } else {
      assert s.tasks.Keys == {};
      assert s.tasks == map[];
    }
  }

  // ---- When a saved attestation can still be finished ----

  lemma {:induction false} RunCons(s: State, a: Action, actions: seq<Action>)
    ensures RunFrom(s, [a] + actions) == RunFrom(Step(s, a), actions)
  {
    if actions == [] {
      assert [a] + actions == [a] && [a][..0] == [];
      assert RunFrom(s, []) == s;
    } else {
      var init := actions[..|actions| - 1];
      RunCons(s, a, init);
      assert ([a] + actions)[..|actions|] == [a] + init;
    }
  }

  ghost predicate CanFinish(s: State, id: Id) {
    exists actions :: id !in RunFrom(s, actions).ledger.pending
  }

  /** The promise that submitted `tx` for `id` is still waiting for it. */
  ghost predicate Awaited(s: State, id: Id, tx: nat) {
    exists a :: a in s.tasks && s.tasks[a].jobId == id
      && (s.tasks[a].phase.MintWaiting? || s.tasks[a].phase.MintPolling?) && s.tasks[a].phase.tx == tx
  }

  /** Paid on chain by a transaction that no promise waits for any more. */
  ghost predicate Orphaned(s: State, id: Id) {
    && id in s.ledger.pending
    && s.ledger.pending[id].note in s.ledger.paidBy
    && !Awaited(s, id, s.ledger.paidBy[s.ledger.pending[id].note])
  }

  /** A segment leaves other jobs' notes alone, and drops its own only when a mint returns. */
  lemma SegmentKeepsNotes(l: Ledger, j: Job, t: Task, reply: Reply, id: Id)
    requires id in l.pending && (t.phase.BeforeGateway() ==> t.jobId != id)
    requires t.phase.MintPolling? ==> t.jobId != id
    ensures var r := Segment(l, j, t, reply).ledger;
      id in r.pending && r.pending[id] == l.pending[id] && r.paidBy == l.paidBy
  {
  }

  lemma SegmentTx(l: Ledger, j: Job, t: Task, reply: Reply)
    ensures var next := Segment(l, j, t, reply).next;
      next.Some? ==>
        && (next.value.MintWaiting? ==> next.value == t.phase || (t.phase.Minting? && next.value.tx == |l.submissions|))
        && (next.value.MintPolling? ==>
              next.value == t.phase || (t.phase.MintWaiting? && next.value.tx == t.phase.tx))
  {
  }

  /** The promise at work is not the one that would see the winning receipt. */
  lemma OrphanTask(s: State, id: Id, task: nat)
    requires Inv(s) && Orphaned(s, id) && task in s.tasks && s.tasks[task].jobId == id
    ensures var phase := s.tasks[task].phase;
      && !phase.BeforeGateway() && !phase.MintPolling?
      && (phase.MintWaiting? ==> phase.tx != s.ledger.paidBy[s.ledger.pending[id].note])
  {
    var t := s.tasks[task];
    assert Working(s, t);
    if t.phase.BeforeGateway() {
      UnsentIsNotPending(s.ledger, t);
    }
  }

  lemma OrphanSegment(s: State, id: Id, task: nat, reply: Reply)
    requires Inv(s) && Orphaned(s, id) && task in s.tasks
    ensures Orphaned(Advance(s, task, reply), id)
    ensures Advance(s, task, reply).ledger.pending[id] == s.ledger.pending[id]
  {
    var t, j := s.tasks[task], JobOf(s.board, s.tasks[task].jobId);
    var tx := s.ledger.paidBy[s.ledger.pending[id].note];
    PaidWasSubmitted(s.ledger, s.ledger.pending[id].note, tx);
    if t.jobId == id {
      OrphanTask(s, id, task);
    }
    SegmentKeepsNotes(s.ledger, j, t, reply, id);
    SegmentTx(s.ledger, j, t, reply);
  }

  lemma PaidWasSubmitted(l: Ledger, note: Note, tx: nat)
    requires LedgerInv(l) && Paid(note, tx) in l.log
    ensures tx < |l.submissions|
  {
    var k :| 0 <= k < |l.log| && l.log[k] == Paid(note, tx);
    assert AllowedAt(l.log, k);
    var id, p :| Submitted(id, p, tx) in l.log[..k] && p.note == note;
    assert Submitted(id, p, tx) in l.log;
  }

  lemma OrphanStep(s: State, id: Id, a: Action)
    requires Inv(s) && Orphaned(s, id)
    ensures Orphaned(Step(s, a), id) && Step(s, a).ledger.pending[id] == s.ledger.pending[id]
  {
    match a
    case Wake(task, reply) =>
      if task in s.tasks {
        OrphanSegment(s, id, task, reply);
      }
    case _ =>
  }

  lemma {:induction false} OrphanRun(s: State, id: Id, actions: seq<Action>)
    requires Inv(s) && Orphaned(s, id)
    ensures Inv(RunFrom(s, actions)) && Orphaned(RunFrom(s, actions), id)
    ensures RunFrom(s, actions).ledger.pending[id] == s.ledger.pending[id]
  {
    if actions != [] {
      OrphanRun(s, id, actions[..|actions| - 1]);
      StepKeepsInv(RunFrom(s, actions[..|actions| - 1]), actions[|actions| - 1]);
      OrphanStep(RunFrom(s, actions[..|actions| - 1]), id, actions[|actions| - 1]);
    }
  }

  lemma FinishLater(s: State, a: Action, id: Id)
    requires CanFinish(Step(s, a), id)
    ensures CanFinish(s, id)
  {
    var actions :| id !in RunFrom(Step(s, a), actions).ledger.pending;
    RunCons(s, a, actions);
  }

  lemma FinishNow(s: State, id: Id)
    requires id !in s.ledger.pending
    ensures CanFinish(s, id)
  {
    assert RunFrom(s, []) == s;
  }

  lemma PollingFinishes(s: State, a: nat)
    requires a in s.tasks && s.tasks[a].phase.MintPolling?
    ensures CanFinish(s, s.tasks[a].jobId)
  {
    FinishNow(Step(s, Wake(a, Fine)), s.tasks[a].jobId);
    FinishLater(s, Wake(a, Fine), s.tasks[a].jobId);
  }

  lemma WaitingFinishes(s: State, a: nat)
    requires a in s.tasks && s.tasks[a].phase.MintWaiting? && Won(s.ledger, s.tasks[a].phase.p, s.tasks[a].phase.tx)
    ensures CanFinish(s, s.tasks[a].jobId)
  {
    PollingFinishes(Step(s, Wake(a, Succeeds)), a);
    FinishLater(s, Wake(a, Succeeds), s.tasks[a].jobId);
  }

  lemma MintingFinishes(s: State, a: nat)
    requires a in s.tasks && s.tasks[a].phase.Minting? && s.tasks[a].phase.p.note !in s.ledger.paidBy
    ensures CanFinish(s, s.tasks[a].jobId)
  {
    var tx := |s.ledger.submissions|;
    var s1 := Step(s, Wake(a, Submits));
    WaitingFinishes(Step(s1, Land(tx)), a);
    FinishLater(s1, Land(tx), s.tasks[a].jobId);
    FinishLater(s, Wake(a, Submits), s.tasks[a].jobId);
  }

  /** A resumed mint of an unpaid attestation: submit, land, see the receipt, return. */
  lemma ResumeFinishes(s: State, id: Id)
    requires LedgerInv(s.ledger) && id in s.ledger.pending && s.ledger.pending[id].note !in s.ledger.paidBy
    ensures CanFinish(s, id)
  {
    var s1 := Step(s, Restart);
    MintingFinishes(Step(s1, ResumeMint(id)), s1.board.started);
    FinishLater(s1, ResumeMint(id), id);
    FinishLater(s, Restart, id);
  }

  lemma AwaitedFinishes(s: State, id: Id, tx: nat)
    requires Inv(s) && id in s.ledger.pending && Won(s.ledger, s.ledger.pending[id], tx) && Awaited(s, id, tx)
    ensures CanFinish(s, id)
  {
    var a :| a in s.tasks && s.tasks[a].jobId == id
      && (s.tasks[a].phase.MintWaiting? || s.tasks[a].phase.MintPolling?) && s.tasks[a].phase.tx == tx;
    assert Working(s, s.tasks[a]);
    if s.tasks[a].phase.MintPolling? {
      PollingFinishes(s, a);
    } else {
      WaitingFinishes(s, a);
    }
  }

  /**
   * Resuming heals a failed mint exactly when the attestation is unpaid or its paying transaction is still awaited.
   * A mint that was paid but whose promise threw afterwards (a lost receipt, a failed balance poll, a restart) stays
   * pending for ever: every later submission of the same bytes loses, and no new send of that key is accepted.
   */
  lemma SavedAttestationFinishable(s: State, id: Id)
    requires Inv(s) && id in s.ledger.pending
    ensures CanFinish(s, id) <==> !Orphaned(s, id)
  {
    var p := s.ledger.pending[id];
    if Orphaned(s, id) {
      if CanFinish(s, id) {
        var actions :| id !in RunFrom(s, actions).ledger.pending;
        OrphanRun(s, id, actions);
      }
    } else if p.note in s.ledger.paidBy {
      AwaitedFinishes(s, id, s.ledger.paidBy[p.note]);
    } else {
      ResumeFinishes(s, id);
    }
  }

  /** ... and while it stays pending, its recipient and value can never be sent again. */
  lemma OrphanBlocksItsKey(s: State, id: Id, actions: seq<Action>, other: Id, ticket: Ticket)
    requires Inv(s) && Orphaned(s, id) && SameKey(ticket.recipient, ticket.value, s.ledger.pending[id])
    ensures Step(RunFrom(s, actions), StartSend(other, ticket)) == RunFrom(s, actions)
  {
    OrphanRun(s, id, actions);
  }

  lemma LandedThenRestarted(s: State, id: Id, p: PendingMint)
    requires s.ledger.disk == map[id := p] && s.ledger.submissions == [p.note] && s.ledger.paidBy == map[]
    ensures Orphaned(Step(Step(s, Land(0)), Restart), id)
  {
  }

  lemma RunTwoMore(s: State, actions: seq<Action>, a: Action, b: Action)
    ensures RunFrom(s, actions + [a, b]) == Step(Step(RunFrom(s, actions), a), b)
  {
    var one, two := actions + [a], actions + [a, b];
    assert one[..|one| - 1] == actions && two[..|two| - 1] == one;
  }

  /** Such states are reached: the mint lands, and the server restarts before it sees the receipt. */
  lemma OrphanIsReachable(id: Id, ticket: Ticket, note: Note)
    requires ticket.source.Evm?
    ensures var sent := [StartSend(id, ticket), Wake(0, Fine), Wake(0, Accepts(note, "")), Wake(0, Submits)];
      Orphaned(Run(sent + [Land(0), Restart]), id)
  {
    var sent := [StartSend(id, ticket), Wake(0, Fine), Wake(0, Accepts(note, "")), Wake(0, Submits)];
    RunTwoMore(Initial, sent, Land(0), Restart);
    RunFour(Initial, StartSend(id, ticket), Wake(0, Fine), Wake(0, Accepts(note, "")), Wake(0, Submits));
    SubmittedState(id, ticket, note);
    LandedThenRestarted(Run(sent), id, PendingMint(ticket.recipient, ticket.value, Base, note, ""));
  }

  /** Where a first send stands once its mint transaction is submitted. */
  lemma SubmittedState(id: Id, ticket: Ticket, note: Note)
    requires ticket.source.Evm?
    ensures var s0 := Step(Step(Initial, StartSend(id, ticket)), Wake(0, Fine));
      var s := Step(Step(s0, Wake(0, Accepts(note, ""))), Wake(0, Submits));
      var p := PendingMint(ticket.recipient, ticket.value, Base, note, "");
      && s.ledger.disk == map[id := p] && s.ledger.submissions == [note] && s.ledger.paidBy == map[]
  {
    var s1 := Step(Initial, StartSend(id, ticket));
    assert 0 in s1.tasks && s1.tasks[0] == Task(id, ticket, EvmSigning);
    assert s1.ledger == Initial.ledger.(usedIds := {id});
    SecondSendIsAccepted(s1, 0, note);
  }

  // ---- When a reply is lost ----

  ghost predicate Outstanding(log: seq<Event>, id: Id, p: PendingMint) {
    Issued(id, p) in log && Cleared(id, p) !in log
  }

  /** Two different attestations that Gateway issued for one recipient and value, neither minted as far as is known. */
  ghost predicate Doubled(log: seq<Event>) {
    exists d, p, e, q :: Outstanding(log, d, p) && Outstanding(log, e, q)
      && p.note != q.note && SameKey(p.recipient, p.value, q)
  }

  /** Gateway accepted, but the reply never reached the server. */
  ghost predicate Unheard(log: seq<Event>, id: Id, p: PendingMint) {
    Issued(id, p) in log && Recorded(id, p) !in log
  }

  lemma HeardNotesDiffer(l: Ledger, d: Id, p: PendingMint, e: Id, q: PendingMint)
    requires LedgerInv(l) && Outstanding(l.log, d, p) && Outstanding(l.log, e, q)
    requires !Unheard(l.log, d, p) && !Unheard(l.log, e, q) && p.note != q.note
    ensures !SameKey(p.recipient, p.value, q)
  {
    assert Held(l, d, p) && Held(l, e, q);
  }

  /** No reply of Gateway is lost on the way. */
  ghost predicate LosesNone(actions: seq<Action>) {
    forall k :: 0 <= k < |actions| ==> !(actions[k].Wake? && actions[k].reply.AcceptsUnheard?)
  }

  ghost predicate AllHeard(log: seq<Event>) {
    forall id, p :: !Unheard(log, id, p)
  }

  lemma HeardSegment(l: Ledger, j: Job, t: Task, reply: Reply)
    requires AllHeard(l.log) && !reply.AcceptsUnheard?
    ensures AllHeard(Segment(l, j, t, reply).ledger.log)
  {
    var log := Segment(l, j, t, reply).ledger.log;
    forall id, p
      ensures !Unheard(log, id, p)
    {
      assert !Unheard(l.log, id, p);
    }
  }

  lemma HeardStep(s: State, a: Action)
    requires AllHeard(s.ledger.log) && !(a.Wake? && a.reply.AcceptsUnheard?)
    ensures AllHeard(Step(s, a).ledger.log)
  {
    match a
    case Wake(task, reply) =>
      if task in s.tasks {
        HeardSegment(s.ledger, JobOf(s.board, s.tasks[task].jobId), s.tasks[task], reply);
      }
    case Land(tx) =>
      forall id, p
        ensures !Unheard(Step(s, a).ledger.log, id, p)
      {
        assert !Unheard(s.ledger.log, id, p);
      }
    case _ =>
  }

  lemma {:induction false} HeardRun(s: State, actions: seq<Action>)
    requires Inv(s) && AllHeard(s.ledger.log) && LosesNone(actions)
    ensures Inv(RunFrom(s, actions)) && AllHeard(RunFrom(s, actions).ledger.log)
  {
    if actions != [] {
      var init, last := actions[..|actions| - 1], actions[|actions| - 1];
      assert forall k :: 0 <= k < |init| ==> init[k] == actions[k];
      HeardRun(s, init);
      StepKeepsInv(RunFrom(s, init), last);
      HeardStep(RunFrom(s, init), last);
    }
  }

  lemma HeardNeverDoubled(l: Ledger)
    requires LedgerInv(l) && AllHeard(l.log)
    ensures !Doubled(l.log)
  {
    forall d, p, e, q | Outstanding(l.log, d, p) && Outstanding(l.log, e, q) && p.note != q.note
      ensures !SameKey(p.recipient, p.value, q)
    {
      HeardNotesDiffer(l, d, p, e, q);
    }
  }

  /** While no Gateway reply is lost, no two attestations are ever open for one recipient and value. */
  lemma HeardRunsNeverDouble(actions: seq<Action>)
    requires LosesNone(actions)
    ensures !Doubled(Run(actions).ledger.log)
  {
    HeardRun(Initial, actions);
    HeardNeverDoubled(Run(actions).ledger);
  }

  lemma RecordedWasIssued(log: seq<Event>, id: Id, p: PendingMint)
    requires GoodLog(log) && Recorded(id, p) in log
    ensures Issued(id, p) in log
  {
    var k :| 0 <= k < |log| && log[k] == Recorded(id, p);
    assert AllowedAt(log, k);
  }

  lemma IssuedNotesDiffer(log: seq<Event>, d: Id, p: PendingMint, e: Id, q: PendingMint)
    requires GoodLog(log) && Issued(d, p) in log && Issued(e, q) in log && (d != e || p != q)
    ensures p.note != q.note
  {
    var i :| 0 <= i < |log| && log[i] == Issued(d, p);
    var j :| 0 <= j < |log| && log[j] == Issued(e, q);
    if i < j {
      assert AllowedAt(log, j);
      assert log[..j][i] == log[i];
    } else {
      assert AllowedAt(log, i);
      assert log[..i][j] == log[j];
    }
  }

  lemma {:induction false} FreshNumber(used: set<nat>) returns (n: nat)
    ensures forall m :: m in used ==> m < n
  {
    if used == {} {
      n := 0;
    } else {
      var m :| m in used;
      var k := FreshNumber(used - {m});
      n := if k <= m then m + 1 else k;
      assert forall x :: x in used ==> x == m || x in used - {m};
    }
  }

  /** After a restart, a second send of a key that no pending entry blocks starts ... */
  lemma SecondSendStarts(s: State, id: Id, recipient: string, value: nat)
    requires Inv(s) && id !in s.ledger.usedIds && !HoldsUnminted(s.ledger.pending, recipient, value)
    ensures var ticket := Ticket(recipient, value, Evm, true, true);
      var t := Step(Step(s, Restart), StartSend(id, ticket));
      && t.ledger == s.ledger.(usedIds := s.ledger.usedIds + {id})
      && s.board.started in t.tasks && t.tasks[s.board.started] == Task(id, ticket, EvmSigning)
  {
  }

  /** ... and Gateway may accept it, so that a second attestation is recorded. */
  lemma SecondSendIsAccepted(s: State, n: nat, note: Note)
    requires n in s.tasks && s.tasks[n].phase.EvmSigning? && note !in s.ledger.issued
    ensures var t := s.tasks[n];
      var q := PendingMint(t.ticket.recipient, t.ticket.value, if t.ticket.source.Evm? then Base else Arc, note, "");
      Step(Step(s, Wake(n, Fine)), Wake(n, Accepts(note, ""))).ledger
      == RecordPendingMint(Issue(s.ledger, t.jobId, q), t.jobId, q)
  {
  }

  lemma RunFour(s: State, a: Action, b: Action, c: Action, d: Action)
    ensures RunFrom(s, [a, b, c, d]) == Step(Step(Step(Step(s, a), b), c), d)
  {
    RunTwoMore(s, [], a, b);
    RunTwoMore(s, [a, b], c, d);
    assert [] + [a, b] == [a, b] && [a, b] + [c, d] == [a, b, c, d];
    assert RunFrom(s, []) == s;
  }

  lemma SecondSendLogs(s: State, e: Id, recipient: string, value: nat, note: Note)
    requires Inv(s) && e !in s.ledger.usedIds && note !in s.ledger.issued
    requires !HoldsUnminted(s.ledger.pending, recipient, value)
    ensures var n, q := s.board.started, PendingMint(recipient, value, Base, note, "");
      var ticket := Ticket(recipient, value, Evm, true, true);
      var actions := [Restart, StartSend(e, ticket), Wake(n, Fine), Wake(n, Accepts(note, ""))];
      RunFrom(s, actions).ledger.log == s.ledger.log + [Issued(e, q)] + [Recorded(e, q)]
  {
    var ticket, n := Ticket(recipient, value, Evm, true, true), s.board.started;
    SecondSendStarts(s, e, recipient, value);
    SecondSendIsAccepted(Step(Step(s, Restart), StartSend(e, ticket)), n, note);
    RunFour(s, Restart, StartSend(e, ticket), Wake(n, Fine), Wake(n, Accepts(note, "")));
  }

  lemma TwoOutstanding(l: Ledger, id: Id, p: PendingMint, e: Id, q: PendingMint)
    requires LedgerInv(l) && Unheard(l.log, id, p) && e !in l.usedIds && q.note !in l.issued
    requires SameKey(p.recipient, p.value, q)
    ensures Doubled(l.log + [Issued(e, q)] + [Recorded(e, q)])
  {
    var after := l.log + [Issued(e, q)] + [Recorded(e, q)];
    ClearedWasRecorded(l, id, p);
    ClearedWasRecorded(l, e, q);
    assert Outstanding(after, id, p) && Outstanding(after, e, q);
  }

  /** Some continuation that loses no further reply holds two open attestations for one recipient and value. */
  ghost predicate CanDouble(s: State) {
    exists actions :: LosesNone(actions) && Doubled(RunFrom(s, actions).ledger.log)
  }

  lemma SecondSendDoubles(s: State, id: Id, p: PendingMint)
    requires Inv(s) && Unheard(s.ledger.log, id, p) && !HoldsUnminted(s.ledger.pending, p.recipient, p.value)
    ensures CanDouble(s)
  {
    var e := FreshNumber(s.ledger.usedIds);
    var note := FreshNumber(s.ledger.issued);
    SecondSendLogs(s, e, p.recipient, p.value, note);
    TwoOutstanding(s.ledger, id, p, e, PendingMint(p.recipient, p.value, Base, note, ""));
    var n, ticket := s.board.started, Ticket(p.recipient, p.value, Evm, true, true);
    assert LosesNone([Restart, StartSend(e, ticket), Wake(n, Fine), Wake(n, Accepts(note, ""))]);
  }

  /**
   * The lock and the pending table guard only what the server heard. Once one accepted transfer's reply is lost, some
   * continuation holds two open attestations for one recipient and value.
   */
  lemma LostReplyCanDouble(s: State, id: Id, p: PendingMint)
    requires Inv(s) && Unheard(s.ledger.log, id, p)
    ensures CanDouble(s)
  {
    var l := s.ledger;
    ClearedWasRecorded(l, id, p);
    if HoldsUnminted(l.pending, p.recipient, p.value) {
      var e :| e in l.pending && SameKey(p.recipient, p.value, l.pending[e]);
      RecordedWasIssued(l.log, e, l.pending[e]);
      IssuedNotesDiffer(l.log, id, p, e, l.pending[e]);
      assert Outstanding(l.log, id, p) && Outstanding(l.log, e, l.pending[e]);
      assert RunFrom(s, []) == s && LosesNone([]);
    } else {
      SecondSendDoubles(s, id, p);
    }
  }

  /** With no further loss, two attestations can come to be open exactly when a reply has been lost before. */
  lemma DoublesExactlyAfterALostReply(s: State)
    requires Inv(s)
    ensures CanDouble(s) <==> exists id, p :: Unheard(s.ledger.log, id, p)
  {
    if id, p :| Unheard(s.ledger.log, id, p) {
      LostReplyCanDouble(s, id, p);
    } else if actions :| LosesNone(actions) && Doubled(RunFrom(s, actions).ledger.log) {
      HeardRun(s, actions);
      HeardNeverDoubled(RunFrom(s, actions).ledger);
    }
  }

  /** A lost reply is one reply away from a fresh server. */
  lemma LostReplyIsReachable(id: Id, ticket: Ticket, note: Note)
    requires ticket.source.Evm?
    ensures var p := PendingMint(ticket.recipient, ticket.value, Base, note, "");
      Unheard(Run([StartSend(id, ticket), Wake(0, Fine), Wake(0, AcceptsUnheard(note, "")), Restart]).ledger.log, id, p)
  {
    RunFour(Initial, StartSend(id, ticket), Wake(0, Fine), Wake(0, AcceptsUnheard(note, "")), Restart);
    var s1 := Step(Initial, StartSend(id, ticket));
    assert 0 in s1.tasks && s1.tasks[0] == Task(id, ticket, EvmSigning);
    assert s1.ledger == Initial.ledger.(usedIds := {id});
    var p := PendingMint(ticket.recipient, ticket.value, Base, note, "");
    assert Step(Step(s1, Wake(0, Fine)), Wake(0, AcceptsUnheard(note, ""))).ledger.log == [Issued(id, p)];
  }
}
