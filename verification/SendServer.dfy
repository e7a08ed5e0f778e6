/**
 * The send pipeline of apps/ultimate-treasury/server/send.ts, as a transition system.
 *
 * A state is the board of jobs the browser polls, the ledger of attestations (in memory, on disk, at Gateway and on
 * the destination chain), and the promise of each job in flight. Each step is the code one job runs between two
 * awaits. Gateway replies, mint outcomes, transactions landing and process restarts are chosen by the environment.
 */
module SendServer {
  import opened Wrappers
  import opened Text

  /** A job id: 8 random bytes, read as a number. */
  type Id = nat

  /** Attestation bytes, read as a number. An attestation is a bearer note. */
  type Note = nat

  datatype Source = Evm | Solana

  datatype Dest = Base | Arc

  datatype StepState = Pending | Running | Done | Failed | Skipped

  datatype Status = InProgress | Minted | Refused | Error

  datatype Job = Job(status: Status, approvals: StepState, attestation: StepState, mint: StepState, resumable: bool)

  /**
   * A validated send: what `startSend` hands to the pipeline. `quorum` says the signers' weight reaches the
   * threshold.
   */
  datatype Ticket = Ticket(recipient: string, value: nat, source: Source, quorum: bool, allowlisted: bool)

  datatype PendingMint = PendingMint(recipient: string, value: nat, dest: Dest, note: Note, signature: string)

  /** Where a job's promise stands. */
  datatype Phase =
    | EvmSigning
    | EvmPosting
    | SolSigning
    | SolPosting(retries: nat)
    | Minting(p: PendingMint)
    | MintWaiting(p: PendingMint, tx: nat)
    | MintPolling(p: PendingMint, tx: nat)
    | Threw
    | Settled
  {
    predicate BeforeGateway() {
      EvmSigning? || EvmPosting? || SolSigning? || SolPosting?
    }

    predicate InMint() {
      Minting? || MintWaiting? || MintPolling?
    }
  }

  datatype Task = Task(jobId: Id, ticket: Ticket, phase: Phase)

  /** What an await ends with. The `Unheard` replies did their work on the other side before the call threw. */
  datatype Reply =
    | Throws
    | Fine
    | SignerRefuses
    | NotOk(notAuthorized: bool)
    | Accepts(note: Note, signature: string)
    | AcceptsUnheard(note: Note, signature: string)
    | Submits
    | SubmitsUnheard
    | Reverts
    | Succeeds

  datatype Event =
    | Issued(id: Id, p: PendingMint)
    | Recorded(id: Id, p: PendingMint)
    | Submitted(id: Id, p: PendingMint, tx: nat)
    | Paid(note: Note, tx: nat)
    | Cleared(id: Id, p: PendingMint)

  datatype Action =
    | StartSend(id: Id, ticket: Ticket)
    | ResumeMint(id: Id)
    | Wake(task: nat, reply: Reply)
    | Land(tx: nat)
    | Restart

  /** `jobs` with its insertion order, the `running` lock, and how many promises were started. */
  datatype Board = Board(jobs: map<Id, Job>, order: seq<Id>, running: Option<Id>, started: nat)

  /**
   * `pending` is `pendingMints` and `disk` its mirror. `usedIds` and `issued` make random ids and attestations fresh.
   * `submissions` lists the mint transactions sent, and `paidBy` which of them the minter contract paid for a note.
   */
  datatype Ledger = Ledger(
    pending: map<Id, PendingMint>,
    disk: map<Id, PendingMint>,
    usedIds: set<Id>,
    issued: set<Note>,
    submissions: seq<Note>,
    paidBy: map<Note, nat>,
    log: seq<Event>)

  datatype State = State(board: Board, ledger: Ledger, tasks: map<nat, Task>)

  const Initial := State(Board(map[], [], None, 0), Ledger(map[], map[], {}, {}, [], map[], []), map[])

  const MAX_JOBS := 25
  const MAX_RETRIES := 36

  predicate SameKey(recipient: string, value: nat, p: PendingMint) {
    Lower(p.recipient) == Lower(recipient) && p.value == value
  }

  // ---- The ledger's operations ----

  function RecordPendingMint(l: Ledger, id: Id, p: PendingMint): Ledger {
    l.(pending := l.pending[id := p], disk := l.disk[id := p], log := l.log + [Recorded(id, p)])
  }

  function ClearPendingMint(l: Ledger, id: Id, p: PendingMint): Ledger {
    l.(pending := l.pending - {id}, disk := l.disk - {id}, log := l.log + [Cleared(id, p)])
  }

  /** `assertNoPendingMint` throws. */
  predicate HoldsUnminted(pending: map<Id, PendingMint>, recipient: string, value: nat) {
    exists id :: id in pending && SameKey(recipient, value, pending[id])
  }

  function Issue(l: Ledger, id: Id, p: PendingMint): Ledger {
    l.(issued := l.issued + {p.note}, log := l.log + [Issued(id, p)])
  }

  function Submit(l: Ledger, id: Id, p: PendingMint): Ledger {
    l.(submissions := l.submissions + [p.note], log := l.log + [Submitted(id, p, |l.submissions|)])
  }

  /** A submitted mint transaction is included; the minter contract pays each attestation once. */
  function LandTx(l: Ledger, tx: nat): Ledger {
    if tx < |l.submissions| && l.submissions[tx] !in l.paidBy
    then l.(paidBy := l.paidBy[l.submissions[tx] := tx], log := l.log + [Paid(l.submissions[tx], tx)])
    else l
  }

  // ---- The board's operations ----

  /** `jobs.set(id, job)`: an insertion-ordered map, where a present key keeps its place. */
  function SetJob(b: Board, id: Id, job: Job): Board {
    b.(jobs := b.jobs[id := job], order := if id in b.jobs then b.order else b.order + [id])
  }

  /** Past the cap, the oldest job is dropped. */
  function Evict(b: Board): Board {
    if |b.order| > MAX_JOBS then b.(jobs := b.jobs - {b.order[0]}, order := b.order[1..]) else b
  }

  /** Only the first running step is marked failed. */
  function FailFirstRunning(j: Job): Job {
    if j.approvals == Running then j.(approvals := Failed)
    else if j.attestation == Running then j.(attestation := Failed)
    else if j.mint == Running then j.(mint := Failed)
    else j
  }

  function Skip(x: StepState): StepState {
    if x == Pending then Skipped else x
  }

  function SkipPending(j: Job): Job {
    j.(approvals := Skip(j.approvals), attestation := Skip(j.attestation), mint := Skip(j.mint))
  }

  // ---- The segments of a job ----

  /** A segment's effect: on the ledger, on the job, and where the promise goes (`None` once `finally` has run). */
  datatype Progress = Progress(ledger: Ledger, job: Job, next: Option<Phase>)

  function AttestedMint(t: Task, reply: Reply): PendingMint
    requires reply.Accepts? || reply.AcceptsUnheard?
  {
    PendingMint(t.ticket.recipient, t.ticket.value, if t.ticket.source.Evm? then Base else Arc, reply.note,
                reply.signature)
  }

  function Posted(l: Ledger, j: Job, t: Task, reply: Reply, retry: Option<Phase>): Progress {
    match reply
    case Throws => Progress(l, j, Some(Threw))
    case NotOk(notAuthorized) =>
      if notAuthorized && retry.Some? then Progress(l, j, retry)
      else Progress(l, j.(attestation := Failed, status := Refused), Some(Settled))
    case Accepts(note, _) =>
      if note in l.issued then Progress(l, j, Some(t.phase))
      else
        var p := AttestedMint(t, reply);
        Progress(RecordPendingMint(Issue(l, t.jobId, p), t.jobId, p), j.(attestation := Done, mint := Running),
                 Some(Minting(p)))
    case AcceptsUnheard(note, _) =>
      if note in l.issued then Progress(l, j, Some(t.phase))
      else Progress(Issue(l, t.jobId, AttestedMint(t, reply)), j, Some(Threw))
    case _ => Progress(l, j, Some(t.phase))
  }

  predicate Won(l: Ledger, p: PendingMint, tx: nat) {
    p.note in l.paidBy && l.paidBy[p.note] == tx
  }

  function Segment(l: Ledger, j: Job, t: Task, reply: Reply): Progress {
    match t.phase
    case EvmSigning =>
      if reply.Throws? then Progress(l, j, Some(Threw))
      else if reply.Fine? then
        Progress(l, j.(approvals := if t.ticket.quorum then Done else Failed, attestation := Running), Some(EvmPosting))
      else Progress(l, j, Some(t.phase))
    case EvmPosting => Posted(l, j, t, reply, None)
    case SolSigning =>
      if reply.Throws? then Progress(l, j, Some(Threw))
      else if reply.SignerRefuses? then Progress(l, j.(approvals := Failed, status := Refused), Some(Settled))
      else if reply.Fine? then Progress(l, j.(approvals := Done, attestation := Running), Some(SolPosting(0)))
      else Progress(l, j, Some(t.phase))
    case SolPosting(retries) =>
      Posted(l, j, t, reply, if retries < MAX_RETRIES then Some(SolPosting(retries + 1)) else None)
    case Minting(p) =>
      if reply.Throws? then Progress(l, j, Some(Threw))
      else if reply.Submits? then Progress(Submit(l, t.jobId, p), j, Some(MintWaiting(p, |l.submissions|)))
      else if reply.SubmitsUnheard? then Progress(Submit(l, t.jobId, p), j, Some(Threw))
      else Progress(l, j, Some(t.phase))
    case MintWaiting(p, tx) =>
      if reply.Throws? || (reply.Reverts? && !Won(l, p, tx)) then Progress(l, j, Some(Threw))
      else if reply.Succeeds? && Won(l, p, tx) then Progress(l, j, Some(MintPolling(p, tx)))
      else Progress(l, j, Some(t.phase))
    case MintPolling(p, tx) =>
      if reply.Throws? then Progress(l, j, Some(Threw))
      else if reply.Fine? then
        Progress(ClearPendingMint(l, t.jobId, p), j.(mint := Done, status := Minted), Some(Settled))
      else Progress(l, j, Some(t.phase))
    case Threw =>
      Progress(l, FailFirstRunning(j).(status := Error, resumable := j.resumable || t.jobId in l.pending),
               Some(Settled))
    case Settled => Progress(l, SkipPending(j), None)
  }

  /** The job's promise keeps a reference to its job, so an evicted job would run on unseen. */
  function JobOf(b: Board, id: Id): Job {
    if id in b.jobs then b.jobs[id] else Job(InProgress, Pending, Pending, Pending, false)
  }

  function Advance(s: State, task: nat, reply: Reply): State
    requires task in s.tasks
  {
    var t := s.tasks[task];
    var r := Segment(s.ledger, JobOf(s.board, t.jobId), t, reply);
    var b := if t.jobId in s.board.jobs then s.board.(jobs := s.board.jobs[t.jobId := r.job]) else s.board;
    match r.next
    case Some(phase) => State(b, r.ledger, s.tasks[task := t.(phase := phase)])
    case None => State(b.(running := None), r.ledger, s.tasks - {task})
  }

  // ---- The entry points ----

  /** The job `startSend` creates, after the part of the pipeline that runs before its first await. */
  function NewJob(t: Ticket): Job {
    var j := Job(InProgress, Running, Pending, Pending, false);
    if t.source.Solana? && !t.allowlisted then j.(approvals := Failed, status := Refused) else j
  }

  function FirstPhase(t: Ticket): Phase {
    match t.source
    case Evm => EvmSigning
    case Solana => if t.allowlisted then SolSigning else Settled
  }

  /** `track`: take the lock and let the job's promise run. */
  function Track(b: Board, l: Ledger, tasks: map<nat, Task>, t: Task): State {
    State(b.(running := Some(t.jobId), started := b.started + 1), l, tasks[b.started := t])
  }

  function Send(s: State, id: Id, ticket: Ticket): State {
    if id in s.ledger.usedIds then s
    else if HoldsUnminted(s.ledger.pending, ticket.recipient, ticket.value) then s
    else if s.board.running.Some? then s
    else
      Track(Evict(SetJob(s.board, id, NewJob(ticket))), s.ledger.(usedIds := s.ledger.usedIds + {id}), s.tasks,
            Task(id, ticket, FirstPhase(ticket)))
  }

  function ResumedJob(b: Board, id: Id): Job {
    var j := if id in b.jobs then b.jobs[id] else Job(InProgress, Done, Done, Pending, false);
    j.(status := InProgress, resumable := false, mint := Running)
  }

  function Resume(s: State, id: Id): State {
    if id !in s.ledger.pending || s.board.running.Some? then s
    else
      var p := s.ledger.pending[id];
      Track(SetJob(s.board, id, ResumedJob(s.board, id)), s.ledger, s.tasks,
            Task(id, Ticket(p.recipient, p.value, if p.dest.Base? then Evm else Solana, false, true), Minting(p)))
  }

  function Step(s: State, a: Action): State {
    match a
    case StartSend(id, ticket) => Send(s, id, ticket)
    case ResumeMint(id) => Resume(s, id)
    case Wake(task, reply) => if task in s.tasks then Advance(s, task, reply) else s
    case Land(tx) => s.(ledger := LandTx(s.ledger, tx))
    case Restart =>
      State(Board(map[], [], None, s.board.started), s.ledger.(pending := s.ledger.disk), map[])
  }

  function RunFrom(s: State, actions: seq<Action>): State {
    if actions == [] then s
    else Step(RunFrom(s, actions[..|actions| - 1]), actions[|actions| - 1])
  }

  /** The state after any requests, replies, landings and restarts, in any order. */
  function Run(actions: seq<Action>): State {
    RunFrom(Initial, actions)
  }

  // ---- What the ledger's log must look like ----

  ghost predicate HasPayer(past: seq<Event>, id: Id, p: PendingMint) {
    exists tx :: Submitted(id, p, tx) in past && Paid(p.note, tx) in past
  }

  ghost predicate HasSubmitter(past: seq<Event>, note: Note, tx: nat) {
    exists id, p :: Submitted(id, p, tx) in past && p.note == note
  }

  /** `e` may follow `past`. */
  ghost predicate Allowed(past: seq<Event>, e: Event) {
    match e
    case Issued(id, p) => forall d, q :: Issued(d, q) in past ==> q.note != p.note
    case Recorded(id, p) =>
      && Issued(id, p) in past
      && (forall d, q :: Recorded(d, q) in past ==>
            d != id && (SameKey(p.recipient, p.value, q) ==> Cleared(d, q) in past))
    case Submitted(id, p, tx) => Recorded(id, p) in past && Cleared(id, p) !in past
    case Paid(note, tx) => (forall x :: Paid(note, x) !in past) && HasSubmitter(past, note, tx)
    case Cleared(id, p) => Recorded(id, p) in past && Cleared(id, p) !in past && HasPayer(past, id, p)
  }

  ghost predicate AllowedAt(log: seq<Event>, k: nat)
    requires k < |log|
  {
    Allowed(log[..k], log[k])
  }

  ghost predicate GoodLog(log: seq<Event>) {
    forall k :: 0 <= k < |log| ==> AllowedAt(log, k)
  }

  // ---- The ledger's invariant ----

  ghost predicate UniqueKeys(pending: map<Id, PendingMint>) {
    forall a, b :: a in pending && b in pending && a != b ==>
      !SameKey(pending[a].recipient, pending[a].value, pending[b])
  }

  ghost predicate PendingIsRecorded(l: Ledger) {
    forall id :: id in l.pending ==>
      id in l.usedIds && Recorded(id, l.pending[id]) in l.log && Cleared(id, l.pending[id]) !in l.log
  }

  ghost predicate RecordedIsPending(l: Ledger) {
    forall id, p :: Recorded(id, p) in l.log ==>
      id in l.usedIds && (Cleared(id, p) in l.log || (id in l.pending && l.pending[id] == p))
  }

  ghost predicate NotesAreIssued(l: Ledger) {
    forall id, p :: Issued(id, p) in l.log ==> p.note in l.issued
  }

  ghost predicate PaymentsMatch(l: Ledger) {
    forall n, tx :: Paid(n, tx) in l.log <==> n in l.paidBy && l.paidBy[n] == tx
  }

  ghost predicate SubmissionsMatch(l: Ledger) {
    && (forall tx :: 0 <= tx < |l.submissions| ==> HasSubmitter(l.log, l.submissions[tx], tx))
    && (forall id, p, tx: nat :: Submitted(id, p, tx) in l.log ==> tx < |l.submissions| && l.submissions[tx] == p.note)
  }

  ghost predicate LedgerInv(l: Ledger) {
    && l.pending == l.disk
    && UniqueKeys(l.pending)
    && PendingIsRecorded(l)
    && RecordedIsPending(l)
    && NotesAreIssued(l)
    && PaymentsMatch(l)
    && SubmissionsMatch(l)
    && GoodLog(l.log)
  }

  /** No attestation was recorded for this job, and none is pending for the same recipient and value. */
  ghost predicate Unsent(l: Ledger, t: Task) {
    && t.jobId in l.usedIds
    && (forall p :: Recorded(t.jobId, p) !in l.log)
    && !HoldsUnminted(l.pending, t.ticket.recipient, t.ticket.value)
  }

  ghost predicate Held(l: Ledger, id: Id, p: PendingMint) {
    id in l.pending && l.pending[id] == p
  }

  ghost predicate TaskInv(l: Ledger, t: Task) {
    match t.phase
    case Minting(p) => Held(l, t.jobId, p)
    case MintWaiting(p, tx) => Held(l, t.jobId, p) && Submitted(t.jobId, p, tx) in l.log
    case MintPolling(p, tx) => Held(l, t.jobId, p) && Submitted(t.jobId, p, tx) in l.log && Won(l, p, tx)
    case Threw => true
    case Settled => true
    case _ => Unsent(l, t)
  }

  lemma GoodLogExtend(log: seq<Event>, e: Event)
    requires GoodLog(log) && Allowed(log, e)
    ensures GoodLog(log + [e])
  {
    forall k | 0 <= k < |log + [e]|
      ensures AllowedAt(log + [e], k)
    {
      assert (log + [e])[..k] == log[..k];
      if k == |log| {
        assert log[..k] == log;
      } else {
        assert AllowedAt(log, k);
      }
    }
  }

  lemma SubmitterExtend(log: seq<Event>, e: Event, note: Note, tx: nat)
    requires HasSubmitter(log, note, tx)
    ensures HasSubmitter(log + [e], note, tx)
  {
    var id, p :| Submitted(id, p, tx) in log && p.note == note;
    assert Submitted(id, p, tx) in log + [e];
  }

  lemma SubmissionsExtend(l: Ledger, e: Event)
    requires SubmissionsMatch(l) && !e.Submitted?
    ensures SubmissionsMatch(l.(log := l.log + [e]))
  {
    forall tx | 0 <= tx < |l.submissions|
      ensures HasSubmitter(l.log + [e], l.submissions[tx], tx)
    {
      SubmitterExtend(l.log, e, l.submissions[tx], tx);
    }
  }

  lemma IssueKeeps(l: Ledger, id: Id, p: PendingMint)
    requires LedgerInv(l) && p.note !in l.issued
    ensures LedgerInv(Issue(l, id, p))
  {
    GoodLogExtend(l.log, Issued(id, p));
    SubmissionsExtend(l, Issued(id, p));
  }

  lemma RecordKeeps(l: Ledger, id: Id, p: PendingMint)
    requires LedgerInv(l) && Issued(id, p) in l.log
    requires id in l.usedIds && (forall q :: Recorded(id, q) !in l.log)
    requires !HoldsUnminted(l.pending, p.recipient, p.value)
    ensures LedgerInv(RecordPendingMint(l, id, p))
  {
    assert Cleared(id, p) !in l.log by {
      ClearedWasRecorded(l, id, p);
    }
    GoodLogExtend(l.log, Recorded(id, p));
    SubmissionsExtend(l, Recorded(id, p));
  }

  lemma ClearedWasRecorded(l: Ledger, id: Id, p: PendingMint)
    requires GoodLog(l.log)
    ensures Cleared(id, p) in l.log ==> Recorded(id, p) in l.log
  {
    if Cleared(id, p) in l.log {
      var k :| 0 <= k < |l.log| && l.log[k] == Cleared(id, p);
      assert AllowedAt(l.log, k);
    }
  }

  lemma SubmitKeeps(l: Ledger, id: Id, p: PendingMint)
    requires LedgerInv(l) && Held(l, id, p)
    ensures LedgerInv(Submit(l, id, p))
  {
    var e := Submitted(id, p, |l.submissions|);
    GoodLogExtend(l.log, e);
    var m := Submit(l, id, p);
    forall tx | 0 <= tx < |m.submissions|
      ensures HasSubmitter(m.log, m.submissions[tx], tx)
    {
      if tx < |l.submissions| {
        SubmitterExtend(l.log, e, l.submissions[tx], tx);
      } else {
        assert e in m.log;
      }
    }
  }

  lemma LandKeeps(l: Ledger, tx: nat)
    requires LedgerInv(l)
    ensures LedgerInv(LandTx(l, tx))
  {
    if LandTx(l, tx) != l {
      GoodLogExtend(l.log, Paid(l.submissions[tx], tx));
      SubmissionsExtend(l, Paid(l.submissions[tx], tx));
    }
  }

  lemma ClearKeeps(l: Ledger, id: Id, p: PendingMint, tx: nat)
    requires LedgerInv(l) && Held(l, id, p) && Submitted(id, p, tx) in l.log && Won(l, p, tx)
    ensures LedgerInv(ClearPendingMint(l, id, p))
  {
    assert HasPayer(l.log, id, p);
    GoodLogExtend(l.log, Cleared(id, p));
    SubmissionsExtend(l, Cleared(id, p));
  }

  // ---- The board's invariant ----

  predicate Resting(x: StepState) {
    x != Pending && x != Running
  }

  /** What a job shows while its promise is at `phase`. */
  ghost predicate JobInv(j: Job, phase: Phase, held: bool) {
    match phase
    case Settled =>
      && !j.status.InProgress? && j.resumable == held
      && j.approvals != Running && j.attestation != Running && j.mint != Running
    case _ =>
      && j.status.InProgress? && !j.resumable
      && (phase.EvmSigning? || phase.SolSigning? ==> j.approvals == Running && j.attestation == j.mint == Pending)
      && (phase.EvmPosting? || phase.SolPosting? ==>
            Resting(j.approvals) && j.attestation == Running && j.mint == Pending)
      && (phase.InMint() ==> Resting(j.approvals) && Resting(j.attestation) && j.mint == Running)
      && (phase.Threw? ==> OneRunning(j))
  }

  ghost predicate OneRunning(j: Job) {
    || (j.approvals == Running && j.attestation == j.mint == Pending)
    || (Resting(j.approvals) && j.attestation == Running && j.mint == Pending)
    || (Resting(j.approvals) && Resting(j.attestation) && j.mint == Running)
  }

  /** A job that no promise is working on. */
  ghost predicate Idle(j: Job, held: bool) {
    && !j.status.InProgress? && j.resumable == held
    && Resting(j.approvals) && Resting(j.attestation) && Resting(j.mint)
  }

  ghost predicate OrderMatches(b: Board) {
    && (forall i, j :: 0 <= i < j < |b.order| ==> b.order[i] != b.order[j])
    && (forall id :: id in b.order <==> id in b.jobs)
  }

  ghost predicate BoardInv(b: Board, l: Ledger) {
    && OrderMatches(b)
    && b.jobs.Keys <= l.usedIds
    && (forall id :: id in b.jobs && b.running != Some(id) ==> Idle(b.jobs[id], id in l.pending))
  }

  /** The lock: held exactly while one promise is unsettled, and by that promise's job, which is on the board. */
  ghost predicate Exclusive(s: State) {
    && (s.board.running.Some? <==> s.tasks.Keys != {})
    && (forall a, b :: a in s.tasks && b in s.tasks ==> a == b)
    && (forall a :: a in s.tasks ==> s.board.running == Some(s.tasks[a].jobId) && s.tasks[a].jobId in s.board.jobs)
  }

  ghost predicate Working(s: State, t: Task) {
    && TaskInv(s.ledger, t)
    && t.jobId in s.board.jobs && JobInv(s.board.jobs[t.jobId], t.phase, t.jobId in s.ledger.pending)
  }

  ghost predicate Inv(s: State) {
    && LedgerInv(s.ledger)
    && BoardInv(s.board, s.ledger)
    && Exclusive(s)
    && (forall a :: a in s.tasks ==> Working(s, s.tasks[a]))
  }

  // ---- The invariant is kept ----

  lemma UnsentIsNotPending(l: Ledger, t: Task)
    requires LedgerInv(l) && Unsent(l, t)
    ensures t.jobId !in l.pending
  {
  }

  lemma AcceptKeeps(l: Ledger, t: Task, p: PendingMint)
    requires LedgerInv(l) && Unsent(l, t) && p.note !in l.issued
    requires p.recipient == t.ticket.recipient && p.value == t.ticket.value
    ensures LedgerInv(RecordPendingMint(Issue(l, t.jobId, p), t.jobId, p))
  {
    IssueKeeps(l, t.jobId, p);
    var m := Issue(l, t.jobId, p);
    assert Issued(t.jobId, p) in m.log;
    RecordKeeps(m, t.jobId, p);
  }

  /**
   * What a segment leaves behind: a good ledger, the job in the shape of its next phase, other jobs' notes untouched.
   */
  ghost predicate Sound(l: Ledger, t: Task, r: Progress) {
    && LedgerInv(r.ledger) && r.ledger.usedIds == l.usedIds
    && (forall id :: id != t.jobId ==> (id in r.ledger.pending <==> id in l.pending))
    && Shaped(t, r)
  }

  ghost predicate Shaped(t: Task, r: Progress) {
    match r.next
    case Some(phase) =>
      TaskInv(r.ledger, t.(phase := phase)) && JobInv(r.job, phase, t.jobId in r.ledger.pending)
    case None => Idle(r.job, t.jobId in r.ledger.pending)
  }

  lemma AcceptSegmentKeeps(l: Ledger, j: Job, t: Task, reply: Reply)
    requires LedgerInv(l) && TaskInv(l, t) && JobInv(j, t.phase, t.jobId in l.pending)
    requires (t.phase.EvmPosting? || t.phase.SolPosting?) && reply.Accepts? && reply.note !in l.issued
    ensures Sound(l, t, Segment(l, j, t, reply))
  {
    UnsentIsNotPending(l, t);
    AcceptKeeps(l, t, AttestedMint(t, reply));
  }

  lemma UnheardKeeps(l: Ledger, j: Job, t: Task, reply: Reply)
    requires LedgerInv(l) && TaskInv(l, t) && JobInv(j, t.phase, t.jobId in l.pending)
    requires (t.phase.EvmPosting? || t.phase.SolPosting?) && reply.AcceptsUnheard? && reply.note !in l.issued
    ensures Sound(l, t, Segment(l, j, t, reply))
  {
    UnsentIsNotPending(l, t);
    IssueKeeps(l, t.jobId, AttestedMint(t, reply));
  }

  /** A reply that brings no attestation leaves the ledger alone. */
  lemma QuietPost(l: Ledger, j: Job, t: Task, reply: Reply)
    requires TaskInv(l, t) && JobInv(j, t.phase, false) && t.jobId !in l.pending
    requires t.phase.EvmPosting? || t.phase.SolPosting?
    requires (reply.Accepts? || reply.AcceptsUnheard?) ==> reply.note in l.issued
    ensures var r := Segment(l, j, t, reply); r.ledger == l && Shaped(t, r)
  {
  }

  lemma PostKeeps(l: Ledger, j: Job, t: Task, reply: Reply)
    requires LedgerInv(l) && TaskInv(l, t) && JobInv(j, t.phase, t.jobId in l.pending)
    requires t.phase.EvmPosting? || t.phase.SolPosting?
    ensures Sound(l, t, Segment(l, j, t, reply))
  {
    if reply.Accepts? && reply.note !in l.issued {
      AcceptSegmentKeeps(l, j, t, reply);
    } else if reply.AcceptsUnheard? && reply.note !in l.issued {
      UnheardKeeps(l, j, t, reply);
    } else {
      UnsentIsNotPending(l, t);
      QuietPost(l, j, t, reply);
    }
  }

  lemma SignKeeps(l: Ledger, j: Job, t: Task, reply: Reply)
    requires LedgerInv(l) && TaskInv(l, t) && JobInv(j, t.phase, t.jobId in l.pending)
    requires t.phase.EvmSigning? || t.phase.SolSigning?
    ensures Sound(l, t, Segment(l, j, t, reply))
  {
    UnsentIsNotPending(l, t);
  }

  lemma SubmitSegmentKeeps(l: Ledger, j: Job, t: Task, reply: Reply)
    requires LedgerInv(l) && TaskInv(l, t) && JobInv(j, t.phase, t.jobId in l.pending) && t.phase.Minting?
    ensures Sound(l, t, Segment(l, j, t, reply))
  {
    if reply.Submits? || reply.SubmitsUnheard? {
      SubmitKeeps(l, t.jobId, t.phase.p);
      assert Submitted(t.jobId, t.phase.p, |l.submissions|) in Submit(l, t.jobId, t.phase.p).log;
    }
  }

  lemma WaitSegmentKeeps(l: Ledger, j: Job, t: Task, reply: Reply)
    requires LedgerInv(l) && TaskInv(l, t) && JobInv(j, t.phase, t.jobId in l.pending) && t.phase.MintWaiting?
    ensures Sound(l, t, Segment(l, j, t, reply))
  {
    QuietWait(l, j, t, reply);
  }

  /** Waiting for a receipt leaves the ledger alone. */
  lemma QuietWait(l: Ledger, j: Job, t: Task, reply: Reply)
    requires TaskInv(l, t) && JobInv(j, t.phase, t.jobId in l.pending) && t.phase.MintWaiting?
    ensures var r := Segment(l, j, t, reply); r.ledger == l && Shaped(t, r)
  {
  }

  lemma PollSegmentKeeps(l: Ledger, j: Job, t: Task, reply: Reply)
    requires LedgerInv(l) && TaskInv(l, t) && JobInv(j, t.phase, t.jobId in l.pending) && t.phase.MintPolling?
    ensures Sound(l, t, Segment(l, j, t, reply))
  {
    if reply.Fine? {
      ClearKeeps(l, t.jobId, t.phase.p, t.phase.tx);
    }
  }

  lemma SettleKeeps(l: Ledger, j: Job, t: Task, reply: Reply)
    requires LedgerInv(l) && TaskInv(l, t) && JobInv(j, t.phase, t.jobId in l.pending)
    requires t.phase.Threw? || t.phase.Settled?
    ensures Sound(l, t, Segment(l, j, t, reply))
  {
  }

  lemma SegmentKeeps(l: Ledger, j: Job, t: Task, reply: Reply)
    requires LedgerInv(l) && TaskInv(l, t) && JobInv(j, t.phase, t.jobId in l.pending)
    ensures Sound(l, t, Segment(l, j, t, reply))
  {
    if t.phase.EvmPosting? || t.phase.SolPosting? {
      PostKeeps(l, j, t, reply);
    } else if t.phase.EvmSigning? || t.phase.SolSigning? {
      SignKeeps(l, j, t, reply);
    } else if t.phase.Minting? {
      SubmitSegmentKeeps(l, j, t, reply);
    } else if t.phase.MintWaiting? {
      WaitSegmentKeeps(l, j, t, reply);
    } else if t.phase.MintPolling? {
      PollSegmentKeeps(l, j, t, reply);
    } else {
      SettleKeeps(l, j, t, reply);
    }
  }

  lemma AwaitKeeps(s: State, task: nat, r: Progress)
    requires Inv(s) && task in s.tasks && Sound(s.ledger, s.tasks[task], r) && r.next.Some?
    ensures var t := s.tasks[task];
      Inv(State(s.board.(jobs := s.board.jobs[t.jobId := r.job]), r.ledger, s.tasks[task := t.(phase := r.next.value)]))
  {
    assert task in s.tasks.Keys;
  }

  lemma EndKeeps(s: State, task: nat, r: Progress)
    requires Inv(s) && task in s.tasks && Sound(s.ledger, s.tasks[task], r) && r.next.None?
    ensures var t := s.tasks[task];
      Inv(State(s.board.(jobs := s.board.jobs[t.jobId := r.job], running := None), r.ledger, s.tasks - {task}))
  {
    assert (s.tasks - {task}).Keys == {};
  }

  lemma AdvanceKeeps(s: State, task: nat, reply: Reply)
    requires Inv(s) && task in s.tasks
    ensures Inv(Advance(s, task, reply))
  {
    var t := s.tasks[task];
    assert Working(s, t);
    var r := Segment(s.ledger, s.board.jobs[t.jobId], t, reply);
    SegmentKeeps(s.ledger, s.board.jobs[t.jobId], t, reply);
    if r.next.Some? {
      AwaitKeeps(s, task, r);
    } else {
      EndKeeps(s, task, r);
    }
  }

  lemma SetJobKeepsOrder(b: Board, id: Id, job: Job)
    requires OrderMatches(b)
    ensures OrderMatches(SetJob(b, id, job))
  {
  }

  lemma EvictKeepsOrder(b: Board)
    requires OrderMatches(b)
    ensures OrderMatches(Evict(b))
    ensures b.order != [] ==> b.order[|b.order| - 1] in Evict(b).jobs
  {
  }

  /** The job just added is the newest, so it is never the one evicted. */
  lemma NewJobStays(b: Board, id: Id, job: Job)
    requires OrderMatches(b) && id !in b.jobs
    ensures OrderMatches(Evict(SetJob(b, id, job)))
    ensures id in Evict(SetJob(b, id, job)).jobs && Evict(SetJob(b, id, job)).jobs[id] == job
    ensures forall d :: d in Evict(SetJob(b, id, job)).jobs && d != id ==>
              d in b.jobs && Evict(SetJob(b, id, job)).jobs[d] == b.jobs[d]
  {
    var c := SetJob(b, id, job);
    SetJobKeepsOrder(b, id, job);
    assert c.order[|c.order| - 1] == id;
    EvictKeepsOrder(c);
  }

  lemma UseIdKeeps(l: Ledger, id: Id)
    requires LedgerInv(l)
    ensures LedgerInv(l.(usedIds := l.usedIds + {id}))
  {
    var m := l.(usedIds := l.usedIds + {id});
    assert SubmissionsMatch(m);
  }

  lemma SendKeepsBoard(s: State, id: Id, ticket: Ticket)
    requires BoardInv(s.board, s.ledger) && id !in s.ledger.usedIds && s.board.running.None?
    ensures var t := Track(Evict(SetJob(s.board, id, NewJob(ticket))), s.ledger.(usedIds := s.ledger.usedIds + {id}),
                           s.tasks, Task(id, ticket, FirstPhase(ticket)));
      BoardInv(t.board, t.ledger) && id in t.board.jobs && t.board.jobs[id] == NewJob(ticket)
  {
    NewJobStays(s.board, id, NewJob(ticket));
  }

  lemma NewTaskIsSound(l: Ledger, id: Id, ticket: Ticket)
    requires LedgerInv(l) && id !in l.usedIds && !HoldsUnminted(l.pending, ticket.recipient, ticket.value)
    ensures var m := l.(usedIds := l.usedIds + {id});
      TaskInv(m, Task(id, ticket, FirstPhase(ticket))) && JobInv(NewJob(ticket), FirstPhase(ticket), id in m.pending)
  {
  }

  lemma SendKeeps(s: State, id: Id, ticket: Ticket)
    requires Inv(s)
    ensures Inv(Send(s, id, ticket))
  {
    var t := Send(s, id, ticket);
    if t != s {
      SendKeepsBoard(s, id, ticket);
      UseIdKeeps(s.ledger, id);
      NewTaskIsSound(s.ledger, id, ticket);
      assert s.tasks.Keys == {};
      assert s.board.started in t.tasks.Keys;
    }
  }

  lemma ResumeKeeps(s: State, id: Id)
    requires Inv(s)
    ensures Inv(Resume(s, id))
  {
    var t := Resume(s, id);
    if t != s {
      SetJobKeepsOrder(s.board, id, ResumedJob(s.board, id));
      assert s.tasks.Keys == {};
      assert s.board.started in t.tasks.Keys;
    }
  }

  lemma LandKeepsTask(l: Ledger, tx: nat, t: Task)
    requires LedgerInv(l) && TaskInv(l, t)
    ensures TaskInv(LandTx(l, tx), t)
  {
  }

  lemma StepKeepsInv(s: State, a: Action)
    requires Inv(s)
    ensures Inv(Step(s, a))
  {
    match a
    case StartSend(id, ticket) => SendKeeps(s, id, ticket);
    case ResumeMint(id) => ResumeKeeps(s, id);
    case Wake(task, reply) =>
      if task in s.tasks {
        AdvanceKeeps(s, task, reply);
      }
    case Land(tx) =>
      LandKeeps(s.ledger, tx);
      forall a | a in s.tasks
        ensures Working(Step(s, Land(tx)), s.tasks[a])
      {
        assert Working(s, s.tasks[a]);
        LandKeepsTask(s.ledger, tx, s.tasks[a]);
      }
    case Restart =>
  }

  lemma {:induction false} RunKeepsInv(actions: seq<Action>)
    ensures Inv(Run(actions))
  {
    if actions != [] {
      RunKeepsInv(actions[..|actions| - 1]);
      StepKeepsInv(Run(actions[..|actions| - 1]), actions[|actions| - 1]);
    }
  }
}
